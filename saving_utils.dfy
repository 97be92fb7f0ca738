/** SavingUtils: typed access to one SharedPreferences file. Scalars are
    stored as they are; int and boolean arrays and matrices are stored as
    one string, their decimal or boolean texts joined by '|', and read back
    through a regular-expression split. Every instance is kept in a static
    list that forContext searches by context. */
module Saving {
  import opened JavaLang

  /** A stored preference, with the type it was put as. */
  datatype Value = IntV(i: int) | LongV(l: int) | BoolV(b: bool) | StrV(s: string)

  /** An element of an int[] or boolean[] handed to the array encoders. */
  datatype Elem = IntE(n: int) | BoolE(b: bool)

  /** Which parser a decoder applies: Integer.parseInt or Boolean.parseBoolean. */
  datatype ElemKind = IntKind | BoolKind

  /** An Android Context; equals is identity, which id stands for. */
  datatype Context = Context(id: nat, packageName: string)

  const MATRIX_SUFFIX: string := "_MATRIX"

  // ------------------------------------------------ SharedPreferences reads

  /** getInt(name, def): the stored int, def when absent; a value put with
      another type is a ClassCastException. */
  function IntOf(entries: map<string, Value>, name: string, def: int): Result<int>
  {
    if name !in entries then Ok(def)
    else if entries[name].IntV? then Ok(entries[name].i)
    else Throws(ClassCast)
  }

  function LongOf(entries: map<string, Value>, name: string, def: int): Result<int>
  {
    if name !in entries then Ok(def)
    else if entries[name].LongV? then Ok(entries[name].l)
    else Throws(ClassCast)
  }

  function BoolOf(entries: map<string, Value>, name: string, def: bool): Result<bool>
  {
    if name !in entries then Ok(def)
    else if entries[name].BoolV? then Ok(entries[name].b)
    else Throws(ClassCast)
  }

  /** getString(name, def), where def may be null. */
  function StringOf(entries: map<string, Value>, name: string, def: Option<string>): Result<Option<string>>
  {
    if name !in entries then Ok(def)
    else if entries[name].StrV? then Ok(Some(entries[name].s))
    else Throws(ClassCast)
  }

  /** getString(name, ""), the text every decoder starts from. */
  function StoredText(entries: map<string, Value>, name: string): Result<string>
  {
    match StringOf(entries, name, Some(""))
    case Throws(e) => Throws(e)
    case Ok(None) => Ok("")
    case Ok(Some(t)) => Ok(t)
  }

  // ----------------------------------------------------------- encoding

  function Text(e: Elem): string
  {
    match e
    case IntE(n) => IntToString(n)
    case BoolE(b) => BoolToString(b)
  }

  function Texts(es: seq<Elem>): seq<string>
  {
    seq(|es|, k requires 0 <= k < |es| => Text(es[k]))
  }

  /** What the encoders' StringBuilder holds: every piece followed by '|'. */
  function Terminated(pieces: seq<string>): string
  {
    if pieces == [] then ""
    else Terminated(pieces[..|pieces| - 1]) + pieces[|pieces| - 1] + "|"
  }

  /** Row-major flattening of a matrix, rows of any length. */
  function Flatten<T>(m: seq<seq<T>>): seq<T>
  {
    if m == [] then [] else Flatten(m[..|m| - 1]) + m[|m| - 1]
  }

  // ----------------------------------------------------------- decoding

  /** s.split("|"). The pattern "|" is an alternation of two empty
      patterns, so it matches the empty string at every position: each
      character becomes a piece of its own, and "" gives [""]. */
  function RegexPieces(s: string): seq<string>
  {
    if s == "" then [""] else seq(|s|, k requires 0 <= k < |s| => [s[k]])
  }

  /** Integer.parseInt or Boolean.parseBoolean of a one-character piece:
      only a digit parses as an int, and no single character equals "true"
      ignoring case. */
  function ParsePiece(kind: ElemKind, piece: string): Result<Elem>
    requires |piece| == 1
  {
    match kind
    case IntKind =>
      if IsDigit(piece[0]) then Ok(IntE(piece[0] as int - '0' as int)) else Throws(NumberFormat)
    case BoolKind => Ok(BoolE(false))
  }

  /** Every character of s parses. */
  predicate AllParse(kind: ElemKind, s: string)
  {
    forall k :: 0 <= k < |s| ==> ParsePiece(kind, [s[k]]).Ok?
  }

  /** Cell (i, j) as getIntMatrix reads it: from flat index i * x + j. */
  function CellRead(kind: ElemKind, s: string, x: int, i: int, j: int): Result<Elem>
  {
    var index := ReaderIndex(x, i, j);
    if 0 <= index < |s| then ParsePiece(kind, [s[index]]) else Throws(IndexOutOfBounds)
  }

  /** Every cell before (i, j) in row-major order of an x-by-y matrix reads. */
  predicate CellsReadBefore(kind: ElemKind, s: string, x: int, y: int, i: int, j: int)
  {
    forall a, b :: 0 <= a < x && 0 <= b < y && (a < i || (a == i && b < j)) ==> CellRead(kind, s, x, a, b).Ok?
  }

  /** new SavingUtils(ctx, name): a null or empty name falls back to the
      context's package name. */
  function PrefsName(ctx: Context, name: Option<string>): (r: string)
    ensures name.Some? && name.value != "" ==> r == name.value
    ensures name.None? || name.value == "" ==> r == ctx.packageName
  {
    if name.None? || name.value == "" then ctx.packageName else name.value
  }

  /** The position of the first instance based on ctx. */
  function FirstBasedOn(objects: seq<SavingUtils>, ctx: Context): (r: Option<nat>)
    ensures r.Some? ==> r.value < |objects| && objects[r.value].ctx == ctx
    ensures r.Some? ==> forall k :: 0 <= k < r.value ==> objects[k].ctx != ctx
    ensures r.None? ==> forall k :: 0 <= k < |objects| ==> objects[k].ctx != ctx
  {
    if objects == [] then None
    else if objects[0].ctx == ctx then Some(0)
    else match FirstBasedOn(objects[1..], ctx)
      case None => None
      case Some(k) => Some(k + 1)
  }

  /** A preferences file: the map behind SharedPreferences. */
  class Preferences {
    var entries: map<string, Value>

    constructor (initial: map<string, Value>)
      ensures entries == initial
    {
      entries := initial;
    }
  }

  /** The static list of created instances. */
  class Instances {
    var objects: seq<SavingUtils>

    constructor ()
      ensures objects == []
    {
      objects := [];
    }
  }

  class SavingUtils {
    const ctx: Context
    /** The name the preferences file was opened under. */
    const prefsName: string
    /** ctx.getSharedPreferences(prefsName, 0), supplied by the platform. */
    const prefs: Preferences

    /** new SavingUtils(ctx, name): registers itself in the static list. */
    constructor (instances: Instances, ctx: Context, name: Option<string>, store: Preferences)
      modifies instances
      ensures instances.objects == old(instances.objects) + [this]
      ensures this.ctx == ctx && prefsName == PrefsName(ctx, name) && prefs == store
    {
      this.ctx := ctx;
      prefsName := PrefsName(ctx, name);
      prefs := store;
      new;
      instances.objects := instances.objects + [this];
    }

    predicate IsBasedOn(c: Context)
    {
      ctx == c
    }

    /** forContext(ctx): the first instance based on ctx, else a new one
        opened under the package name. */
    static method ForContext(instances: Instances, ctx: Context, store: Preferences) returns (u: SavingUtils)
      modifies instances
      ensures FirstBasedOn(old(instances.objects), ctx).Some? ==>
                u == old(instances.objects)[FirstBasedOn(old(instances.objects), ctx).value]
                && instances.objects == old(instances.objects)
      ensures FirstBasedOn(old(instances.objects), ctx).None? ==>
                fresh(u) && u.ctx == ctx && u.prefsName == ctx.packageName && u.prefs == store
                && instances.objects == old(instances.objects) + [u]
    {
      var i := 0;
      while i < |instances.objects|
        invariant 0 <= i <= |instances.objects|
        invariant forall k :: 0 <= k < i ==> instances.objects[k].ctx != ctx
      {
        if instances.objects[i].IsBasedOn(ctx) {
          return instances.objects[i];
        }
        i := i + 1;
      }
      u := new SavingUtils(instances, ctx, None, store);
    }

    /** The typed getters: an absent key reads as the default, a key holding
        a value of the getter's type reads as that value, and a key holding
        another type fails with a ClassCastException, as
        SharedPreferences does. */
    function GetInt(name: string, def: int): (r: Result<int>)
      reads prefs
      ensures r.Ok? <==> name !in prefs.entries || prefs.entries[name].IntV?
      ensures name !in prefs.entries ==> r == Ok(def)
      ensures name in prefs.entries && prefs.entries[name].IntV? ==> r == Ok(prefs.entries[name].i)
      ensures r.Throws? ==> r.exc == ClassCast
    {
      IntOf(prefs.entries, name, def)
    }

    function GetLong(name: string, def: int): (r: Result<int>)
      reads prefs
      ensures r.Ok? <==> name !in prefs.entries || prefs.entries[name].LongV?
      ensures name !in prefs.entries ==> r == Ok(def)
      ensures name in prefs.entries && prefs.entries[name].LongV? ==> r == Ok(prefs.entries[name].l)
      ensures r.Throws? ==> r.exc == ClassCast
    {
      LongOf(prefs.entries, name, def)
    }

    function GetBoolean(name: string, def: bool): (r: Result<bool>)
      reads prefs
      ensures r.Ok? <==> name !in prefs.entries || prefs.entries[name].BoolV?
      ensures name !in prefs.entries ==> r == Ok(def)
      ensures name in prefs.entries && prefs.entries[name].BoolV? ==> r == Ok(prefs.entries[name].b)
      ensures r.Throws? ==> r.exc == ClassCast
    {
      BoolOf(prefs.entries, name, def)
    }

    function GetString(name: string, def: Option<string>): (r: Result<Option<string>>)
      reads prefs
      ensures r.Ok? <==> name !in prefs.entries || prefs.entries[name].StrV?
      ensures name !in prefs.entries ==> r == Ok(def)
      ensures name in prefs.entries && prefs.entries[name].StrV? ==> r == Ok(Some(prefs.entries[name].s))
      ensures r.Throws? ==> r.exc == ClassCast
    {
      StringOf(prefs.entries, name, def)
    }

    method PutInt(name: string, val: int)
      modifies prefs
      ensures prefs.entries == old(prefs.entries)[name := IntV(val)]
    {
      prefs.entries := prefs.entries[name := IntV(val)];
    }

    method PutLong(name: string, val: int)
      modifies prefs
      ensures prefs.entries == old(prefs.entries)[name := LongV(val)]
    {
      prefs.entries := prefs.entries[name := LongV(val)];
    }

    method PutBoolean(name: string, val: bool)
      modifies prefs
      ensures prefs.entries == old(prefs.entries)[name := BoolV(val)]
    {
      prefs.entries := prefs.entries[name := BoolV(val)];
    }

    /** putString: a null value removes the key, as Editor.putString does. */
    method PutString(name: string, val: Option<string>)
      modifies prefs
      ensures val.Some? ==> prefs.entries == old(prefs.entries)[name := StrV(val.value)]
      ensures val.None? ==> prefs.entries == old(prefs.entries) - {name}
    {
      if val.Some? {
        prefs.entries := prefs.entries[name := StrV(val.value)];
      } else {
        prefs.entries := prefs.entries - {name};
      }
    }

    /** putIntArray / putBooleanArray: appends every element and a '|', then
        drops the last character; with no element that is substring(0, -1). */
    method PutArray(name: string, values: seq<Elem>) returns (outcome: Result<()>)
      modifies prefs
      ensures values == [] ==> outcome == Throws(StringIndexOutOfBounds) && prefs.entries == old(prefs.entries)
      ensures values != [] ==>
                outcome == Ok(()) && prefs.entries == old(prefs.entries)[name := StrV(Join(Texts(values), '|'))]
    {
      var builder := "";
      var i := 0;
      while i < |values|
        invariant 0 <= i <= |values|
        invariant builder == Terminated(Texts(values[..i]))
        invariant prefs.entries == old(prefs.entries)
      {
        assert values[..i + 1] == values[..i] + [values[i]];
        TextsSnoc(values[..i], values[i]);
        builder := builder + Text(values[i]) + "|";
        i := i + 1;
      }
      assert values[..i] == values;
      Commit(name, builder, Texts(values));
      if values == [] {
        return Throws(StringIndexOutOfBounds);
      }
      outcome := Ok(());
    }

    /** putIntMatrix / putBooleanMatrix: the row-major cells, encoded as an
        values is, under name + "_MATRIX". */
    method PutMatrix(name: string, matrix: seq<seq<Elem>>) returns (outcome: Result<()>)
      modifies prefs
      ensures Flatten(matrix) == [] ==> outcome == Throws(StringIndexOutOfBounds) && prefs.entries == old(prefs.entries)
      ensures Flatten(matrix) != [] ==>
                outcome == Ok(())
                && prefs.entries == old(prefs.entries)[name + MATRIX_SUFFIX := StrV(Join(Texts(Flatten(matrix)), '|'))]
    {
      var builder := "";
      var i := 0;
      while i < |matrix|
        invariant 0 <= i <= |matrix|
        invariant builder == Terminated(Texts(Flatten(matrix[..i])))
        invariant prefs.entries == old(prefs.entries)
      {
        assert matrix[..i + 1][..i] == matrix[..i];
        assert Flatten(matrix[..i + 1]) == Flatten(matrix[..i]) + matrix[i];
        builder := AppendRow(builder, Flatten(matrix[..i]), matrix[i]);
        i := i + 1;
      }
      assert matrix[..i] == matrix;
      assert |Texts(Flatten(matrix))| == |Flatten(matrix)|;
      Commit(name + MATRIX_SUFFIX, builder, Texts(Flatten(matrix)));
      if Flatten(matrix) == [] {
        return Throws(StringIndexOutOfBounds);
      }
      outcome := Ok(());
    }

    /** The shared tail of the encoders: substring(0, length - 1) and commit. */
    method Commit(key: string, builder: string, pieces: seq<string>)
      requires builder == Terminated(pieces)
      modifies prefs
      ensures pieces == [] ==> prefs.entries == old(prefs.entries)
      ensures pieces != [] ==> prefs.entries == old(prefs.entries)[key := StrV(Join(pieces, '|'))]
    {
      if pieces == [] {
        return;
      }
      TerminatedIsJoin(pieces);
      prefs.entries := prefs.entries[key := StrV(builder[..|builder| - 1])];
    }

    /** getIntArray / getBooleanArray: the not-found check, then one parse
        per piece of the regex split. */
    method GetArray(name: string, kind: ElemKind) returns (r: Result<seq<Elem>>)
      ensures StoredText(prefs.entries, name).Throws? ==> r == Throws(StoredText(prefs.entries, name).exc)
      ensures StoredText(prefs.entries, name) == Ok("") ==> r == Throws(NoSuchArray)
      ensures StoredText(prefs.entries, name).Ok? && StoredText(prefs.entries, name).value != "" ==>
                var s := StoredText(prefs.entries, name).value;
                && (r.Ok? <==> AllParse(kind, s))
                && (!AllParse(kind, s) ==> r == Throws(NumberFormat))
      ensures r.Ok? ==>
                var s := StoredText(prefs.entries, name).value;
                |r.value| == |s| && forall k :: 0 <= k < |s| ==> ParsePiece(kind, [s[k]]) == Ok(r.value[k])
    {
      var stored := StoredText(prefs.entries, name);
      if stored.Throws? {
        return Throws(stored.exc);
      }
      var str := RegexPieces(stored.value);
      if |str| == 1 && str[0] == "" {
        return Throws(NoSuchArray);
      }
      var values: seq<Elem> := [];
      var i := 0;
      while i < |str|
        invariant 0 <= i <= |str| && |str| == |stored.value|
        invariant |values| == i
        invariant forall k :: 0 <= k < i ==> ParsePiece(kind, [stored.value[k]]) == Ok(values[k])
      {
        assert str[i] == [stored.value[i]];
        var n := ParsePiece(kind, str[i]);
        if n.Throws? {
          return Throws(n.exc);
        }
        values := values + [n.value];
        i := i + 1;
      }
      r := Ok(values);
    }

    /** getIntMatrix / getBooleanMatrix(name, x, y): allocates x-by-y, runs
        the not-found check on name + "_MATRIX", then reads cell (i, j) from
        piece i * x + j in row-major order. */
    method GetMatrix(name: string, x: int, y: int, kind: ElemKind) returns (r: Result<seq<seq<Elem>>>)
      ensures x < 0 || y < 0 ==> r == Throws(NegativeArraySize)
      ensures x >= 0 && y >= 0 && StoredText(prefs.entries, name + MATRIX_SUFFIX).Throws? ==>
                r == Throws(StoredText(prefs.entries, name + MATRIX_SUFFIX).exc)
      ensures x >= 0 && y >= 0 && StoredText(prefs.entries, name + MATRIX_SUFFIX) == Ok("") ==>
                r == Throws(NoSuchArray)
      ensures r.Ok? ==>
                var s := StoredText(prefs.entries, name + MATRIX_SUFFIX).value;
                && s != "" && |r.value| == x
                && forall i :: 0 <= i < x ==>
                     |r.value[i]| == y && forall j :: 0 <= j < y ==> CellRead(kind, s, x, i, j) == Ok(r.value[i][j])
      ensures x >= 0 && y >= 0
              && StoredText(prefs.entries, name + MATRIX_SUFFIX).Ok? && StoredText(prefs.entries, name + MATRIX_SUFFIX).value != ""
              && r.Throws? ==>
                var s := StoredText(prefs.entries, name + MATRIX_SUFFIX).value;
                exists i, j :: 0 <= i < x && 0 <= j < y && CellsReadBefore(kind, s, x, y, i, j)
                               && CellRead(kind, s, x, i, j) == Throws(r.exc)
    {
      if x < 0 || y < 0 {
        return Throws(NegativeArraySize);
      }
      var stored := StoredText(prefs.entries, name + MATRIX_SUFFIX);
      if stored.Throws? {
        return Throws(stored.exc);
      }
      var s := stored.value;
      var ints := RegexPieces(s);
      if |ints| == 1 && ints[0] == "" {
        return Throws(NoSuchArray);
      }
      var matrix: seq<seq<Elem>> := [];
      var i := 0;
      while i < x
        invariant 0 <= i <= x
        invariant |matrix| == i
        invariant forall a :: 0 <= a < i ==>
                    |matrix[a]| == y && forall b :: 0 <= b < y ==> CellRead(kind, s, x, a, b) == Ok(matrix[a][b])
      {
        var row, failedAt := ReadRow(kind, s, ints, x, y, i);
        if row.Throws? {
          EarlierCellsRead(kind, s, x, y, i, failedAt, matrix);
          return Throws(row.exc);
        }
        matrix := matrix + [row.value];
        i := i + 1;
      }
      r := Ok(matrix);
    }
  }

  /** The encoders' inner loop: appends one row's texts, each followed by '|'. */
  method AppendRow(builder: string, done: seq<Elem>, row: seq<Elem>) returns (b: string)
    requires builder == Terminated(Texts(done))
    ensures b == Terminated(Texts(done + row))
  {
    b := builder;
    var j := 0;
    assert done + row[..0] == done;
    while j < |row|
      invariant 0 <= j <= |row|
      invariant b == Terminated(Texts(done + row[..j]))
    {
      assert done + row[..j + 1] == (done + row[..j]) + [row[j]];
      TextsSnoc(done + row[..j], row[j]);
      b := b + Text(row[j]) + "|";
      j := j + 1;
    }
    assert row[..j] == row;
  }

  /** The decoders' inner loop over row i: parses the cells in order and
      stops at the first that fails, returning its column. */
  method ReadRow(kind: ElemKind, s: string, ints: seq<string>, x: int, y: int, i: int)
    returns (row: Result<seq<Elem>>, failedAt: int)
    requires s != "" && ints == RegexPieces(s) && y >= 0
    ensures row.Ok? ==> |row.value| == y && forall b :: 0 <= b < y ==> CellRead(kind, s, x, i, b) == Ok(row.value[b])
    ensures row.Throws? ==>
              && 0 <= failedAt < y && CellRead(kind, s, x, i, failedAt) == Throws(row.exc)
              && forall b :: 0 <= b < failedAt ==> CellRead(kind, s, x, i, b).Ok?
  {
    var cells: seq<Elem> := [];
    var j := 0;
    while j < y
      invariant 0 <= j <= y
      invariant |cells| == j
      invariant forall b :: 0 <= b < j ==> CellRead(kind, s, x, i, b) == Ok(cells[b])
    {
      var index := i * x + j;
      if !(0 <= index < |ints|) {
        return Throws(IndexOutOfBounds), j;
      }
      assert ints[index] == [s[index]];
      var n := ParsePiece(kind, ints[index]);
      if n.Throws? {
        return Throws(n.exc), j;
      }
      cells := cells + [n.value];
      j := j + 1;
    }
    row, failedAt := Ok(cells), y;
  }

  /** The rows already read and the cells of row i before column j make up
      every cell before (i, j). */
  lemma EarlierCellsRead(kind: ElemKind, s: string, x: int, y: int, i: int, j: int, rows: seq<seq<Elem>>)
    requires |rows| == i
    requires forall a :: 0 <= a < i ==>
               |rows[a]| == y && forall b :: 0 <= b < y ==> CellRead(kind, s, x, a, b) == Ok(rows[a][b])
    requires forall b :: 0 <= b < j ==> CellRead(kind, s, x, i, b).Ok?
    ensures CellsReadBefore(kind, s, x, y, i, j)
  {
    forall a, b | 0 <= a < x && 0 <= b < y && (a < i || (a == i && b < j))
      ensures CellRead(kind, s, x, a, b).Ok?
    {
      if a < i {
        assert CellRead(kind, s, x, a, b) == Ok(rows[a][b]);
      }
    }
  }

  // ------------------------------------------------------------ lemmas

  /** A typed get after a put of the same type reads the value back, and
      every other key reads as before. */
  lemma GetAfterPut(entries: map<string, Value>, name: string, other: string, v: int, def: int)
    requires other != name
    ensures IntOf(entries[name := IntV(v)], name, def) == Ok(v)
    ensures LongOf(entries[name := LongV(v)], name, def) == Ok(v)
    ensures IntOf(entries[name := IntV(v)], other, def) == IntOf(entries, other, def)
    ensures StringOf(entries[name := IntV(v)], name, None) == Throws(ClassCast)
  {
  }

  /** Absent keys read as the default; the one-argument getters pass 0,
      0L, false and null. */
  lemma AbsentReadsDefault(u: SavingUtils, name: string)
    requires name !in u.prefs.entries
    ensures u.GetInt(name, 0) == Ok(0) && u.GetLong(name, 0) == Ok(0)
    ensures u.GetBoolean(name, false) == Ok(false) && u.GetString(name, None) == Ok(None)
    ensures StoredText(u.prefs.entries, name) == Ok("")
  {
  }

  lemma TextsSnoc(es: seq<Elem>, e: Elem)
    ensures Texts(es + [e]) == Texts(es) + [Text(e)]
  {
    assert forall k :: 0 <= k < |es| ==> (es + [e])[k] == es[k];
  }

  /** Terminated adds one piece and one separator at a time. */
  lemma {:induction false} JoinSnoc(pieces: seq<string>, last: string, sep: char)
    requires pieces != []
    ensures Join(pieces + [last], sep) == Join(pieces, sep) + [sep] + last
    decreases |pieces|
  {
    if |pieces| == 1 {
      assert (pieces + [last])[1..] == [last];
    } else {
      assert (pieces + [last])[1..] == pieces[1..] + [last];
      JoinSnoc(pieces[1..], last, sep);
    }
  }

  /** Dropping the builder's last character leaves the pieces joined by
      '|' with no trailing separator. */
  lemma {:induction false} TerminatedIsJoin(pieces: seq<string>)
    requires pieces != []
    ensures Terminated(pieces) == Join(pieces, '|') + "|"
    decreases |pieces|
  {
    var init := pieces[..|pieces| - 1];
    if init == [] {
      assert pieces == [pieces[0]];
    } else {
      TerminatedIsJoin(init);
      JoinSnoc(init, pieces[|pieces| - 1], '|');
      assert init + [pieces[|pieces| - 1]] == pieces;
    }
  }

  /** split on a separator that no piece contains recovers the pieces from
      their join. */
  lemma {:induction false} SplitAllJoin(pieces: seq<string>, sep: char)
    requires pieces != []
    requires forall k :: 0 <= k < |pieces| ==> sep !in pieces[k]
    ensures SplitAll(Join(pieces, sep), sep) == pieces
    decreases |pieces|
  {
    if |pieces| == 1 {
      SplitAllWithout(pieces[0], sep);
    } else {
      SplitAllJoin(pieces[1..], sep);
      SplitAllAfterPiece(pieces[0], sep, Join(pieces[1..], sep));
    }
  }

  /** Every element's text is non-empty and free of '|'. */
  lemma TextsArePieces(es: seq<Elem>)
    ensures forall k :: 0 <= k < |Texts(es)| ==> Texts(es)[k] != "" && '|' !in Texts(es)[k]
  {
    forall k | 0 <= k < |es|
      ensures '|' !in Texts(es)[k]
    {
      var t := Text(es[k]);
      if es[k].IntE? {
        var n := es[k].n;
        if n >= 0 {
          assert t == Digits(n);
          assert forall c :: 0 <= c < |t| ==> IsDigit(t[c]);
        } else {
          assert t == "-" + Digits(-n);
          assert forall c :: 1 <= c < |t| ==> IsDigit(t[c]);
        }
      }
    }
  }

  /** What the encoders store is what String.split on the literal "|"
      would take apart again into the element texts. */
  lemma LiteralSplitRecoversTexts(es: seq<Elem>)
    requires es != []
    ensures JavaSplit(Join(Texts(es), '|'), '|') == Texts(es)
  {
    var p := Texts(es);
    TextsArePieces(es);
    SplitAllJoin(p, '|');
    if '|' in Join(p, '|') {
      assert StripTrailingEmpty(p) == p;
    } else {
      SplitAllWithout(Join(p, '|'), '|');
    }
  }

  /** The writer's layout: in the flattening of an x-by-y matrix, cell
      (i, j) sits at index i * y + j. */
  lemma {:induction false} FlattenLayout<T>(m: seq<seq<T>>, y: nat, i: nat, j: nat)
    requires forall a :: 0 <= a < |m| ==> |m[a]| == y
    requires i < |m| && j < y
    ensures |Flatten(m)| == |m| * y
    ensures WriterIndex(y, i, j) < |Flatten(m)| && Flatten(m)[WriterIndex(y, i, j)] == m[i][j]
    decreases |m|
  {
    var init := m[..|m| - 1];
    FlattenLength(m, y);
    FlattenLength(init, y);
    if i < |m| - 1 {
      FlattenLayout(init, y, i, j);
      assert Flatten(m) == Flatten(init) + m[|m| - 1];
    } else {
      assert Flatten(m) == Flatten(init) + m[|m| - 1];
      assert |Flatten(init)| == i * y;
    }
  }

  lemma {:induction false} FlattenLength<T>(m: seq<seq<T>>, y: nat)
    requires forall a :: 0 <= a < |m| ==> |m[a]| == y
    ensures |Flatten(m)| == |m| * y
    decreases |m|
  {
    if m != [] {
      var init := m[..|m| - 1];
      FlattenLength(init, y);
      assert |Flatten(m)| == |Flatten(init)| + y;
      assert |m| * y == |init| * y + y;
    }
  }

  /** The reader's index i * x + j agrees with the writer's i * y + j on
      every cell exactly when the matrix is square, has at most one row, or
      has no column. */
  lemma ReaderMatchesWriterIff(x: nat, y: nat)
    ensures (forall i, j :: 0 <= i < x && 0 <= j < y ==> ReaderIndex(x, i, j) == WriterIndex(y, i, j))
            <==> (x <= 1 || y == 0 || x == y)
  {
    if x >= 2 && y > 0 && x != y {
      assert ReaderIndex(x, 1, 0) != WriterIndex(y, 1, 0);
    }
    if x <= 1 {
      forall i, j | 0 <= i < x && 0 <= j < y
        ensures ReaderIndex(x, i, j) == WriterIndex(y, i, j)
      {
        assert i == 0;
      }
    }
  }

  /** The flat index getIntMatrix reads cell (i, j) from. */
  function ReaderIndex(x: int, i: int, j: int): int
  {
    i * x + j
  }

  /** The flat index putIntMatrix writes cell (i, j) of a y-column matrix to. */
  function WriterIndex(y: int, i: int, j: int): int
  {
    i * y + j
  }

  /** An int array of two or more elements is stored with a '|' in it, a
      piece parseInt rejects, so getIntArray never reads it back. */
  lemma ArrayOfTwoNeverDecodes(es: seq<Elem>)
    requires |es| >= 2
    ensures !AllParse(IntKind, Join(Texts(es), '|'))
  {
    var p := Texts(es);
    assert Join(p, '|') == p[0] + ['|'] + Join(p[1..], '|');
    assert Join(p, '|')[|p[0]|] == '|';
  }

  /** A single one-digit element is the one int array that survives the
      round trip. */
  lemma OneDigitRoundTrip(d: nat)
    requires d < 10
    ensures var s := Join(Texts([IntE(d)]), '|');
            AllParse(IntKind, s) && |s| == 1 && ParsePiece(IntKind, [s[0]]) == Ok(IntE(d))
  {
    assert Texts([IntE(d)]) == [Digits(d)];
    assert Digits(d) == [DigitChar(d)];
  }

  /** getBooleanArray reads every piece as false. */
  lemma BooleansReadFalse(s: string)
    ensures AllParse(BoolKind, s)
    ensures forall k :: 0 <= k < |s| ==> ParsePiece(BoolKind, [s[k]]) == Ok(BoolE(false))
  {
  }
}
