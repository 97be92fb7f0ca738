/** TextField: an editable text view that reports its size in lines and
    columns. Every count is taken over the pieces of the text split on
    '\n' with Java's String.split, so trailing empty lines are not lines,
    and a line's length is String.length(), in UTF-16 code units. */
module TextFields {
  import opened JavaLang

  /** Identity of a registered OnNewLineAddedListener. */
  type Listener = nat

  /** The lines of a text: text.split("\n"). */
  function Lines(text: string): seq<string>
  {
    JavaSplit(text, '\n')
  }

  /** The longest line length, -1 when there is no line. */
  function MaxLength(lines: seq<string>): int
  {
    if lines == [] then -1
    else Max(MaxLength(lines[..|lines| - 1]), Utf16Length(lines[|lines| - 1]))
  }

  /** How many lines are strictly longer than column. */
  function CountLonger(lines: seq<string>, column: int): nat
  {
    if lines == [] then 0
    else CountLonger(lines[..|lines| - 1], column) + (if Utf16Length(lines[|lines| - 1]) > column then 1 else 0)
  }

  /** The numbers reported to the listener for a text: i + 1 for each line i
      that is not the whole text. */
  function Notifications(lines: seq<string>, text: string): seq<int>
  {
    if lines == [] then []
    else
      Notifications(lines[..|lines| - 1], text)
      + (if lines[|lines| - 1] != text then [|lines|] else [])
  }

  class TextField {
    var text: string
    /** The listener field: it starts null and no member assigns it. */
    var listener: Option<Listener>

    constructor ()
      ensures text == "" && listener == None
    {
      text := "";
      listener := None;
    }

    /** The inherited setText: the text is replaced and TextView then calls
        onTextChanged with the new text, whose reports are returned. */
    method SetText(t: string) returns (reported: seq<int>)
      modifies this
      ensures text == t && listener == old(listener)
      ensures reported == (if listener.Some? then Notifications(Lines(t), t) else [])
    {
      text := t;
      reported := OnTextChanged(t);
    }

    /** getColumnsCount(): the longest line, -1 when there is none. */
    method GetColumnsCount() returns (columns: int)
      ensures columns == MaxLength(Lines(text))
    {
      var lines := Lines(text);
      columns := -1;
      var i := 0;
      while i < |lines|
        invariant 0 <= i <= |lines|
        invariant columns == MaxLength(lines[..i])
      {
        assert lines[..i + 1][..i] == lines[..i];
        columns := Max(columns, Utf16Length(lines[i]));
        i := i + 1;
      }
      assert lines[..i] == lines;
    }

    /** getColumnsCount(lineNumber): -1 past the last line, the line's
        length otherwise; a negative index is out of bounds. */
    function ColumnsCountAt(lineNumber: int): (r: Result<int>)
      reads this
      ensures lineNumber >= |Lines(text)| <==> r == Ok(-1)
      ensures 0 <= lineNumber < |Lines(text)| ==> r == Ok(Utf16Length(Lines(text)[lineNumber]))
      ensures lineNumber < 0 <==> r == Throws(IndexOutOfBounds)
    {
      var lines := Lines(text);
      if |lines| <= lineNumber then Ok(-1)
      else if lineNumber < 0 then Throws(IndexOutOfBounds)
      else Ok(Utf16Length(lines[lineNumber]))
    }

    /** getLinesCount(): the pieces of text.split("\n"). None only for a
        text made of line breaks alone, one for a text without any. */
    function LinesCount(): (n: nat)
      reads this
      ensures n == 0 <==> text != [] && forall i :: 0 <= i < |text| ==> text[i] == '\n'
      ensures '\n' !in text ==> n == 1
    {
      JavaSplitEmptyIff(text, '\n');
      JavaSplitCorners(text, '\n');
      |Lines(text)|
    }

    /** getLinesCount(columnNumber): the lines longer than columnNumber. */
    method LinesLongerThan(columnNumber: int) returns (count: nat)
      ensures count == CountLonger(Lines(text), columnNumber)
    {
      var lines := Lines(text);
      count := 0;
      var i := 0;
      while i < |lines|
        invariant 0 <= i <= |lines|
        invariant count == CountLonger(lines[..i], columnNumber)
      {
        assert lines[..i + 1][..i] == lines[..i];
        if Utf16Length(lines[i]) <= columnNumber {
          i := i + 1;
          continue;
        }
        count := count + 1;
        i := i + 1;
      }
      assert lines[..i] == lines;
    }

    /** onTextChanged: reports i + 1 for every line i that differs from the
        whole text, when a listener is set. */
    method OnTextChanged(changed: string) returns (reported: seq<int>)
      ensures reported == (if listener.Some? then Notifications(Lines(changed), changed) else [])
    {
      var newLines := Lines(changed);
      reported := [];
      var i := 0;
      while i < |newLines|
        invariant 0 <= i <= |newLines|
        invariant reported == (if listener.Some? then Notifications(newLines[..i], changed) else [])
      {
        assert newLines[..i + 1][..i] == newLines[..i];
        if newLines[i] != changed && listener.Some? {
          reported := reported + [i + 1];
        }
        i := i + 1;
      }
      assert newLines[..i] == newLines;
    }
  }

  // ------------------------------------------------------------ lemmas

  /** MaxLength is -1 exactly for no lines; otherwise it bounds every line
      and is reached by one. */
  lemma {:induction false} MaxLengthIsMaximum(lines: seq<string>)
    ensures MaxLength(lines) == -1 <==> lines == []
    ensures forall k :: 0 <= k < |lines| ==> Utf16Length(lines[k]) <= MaxLength(lines)
    ensures lines != [] ==> exists k :: 0 <= k < |lines| && Utf16Length(lines[k]) == MaxLength(lines)
    decreases |lines|
  {
    if lines != [] {
      var init := lines[..|lines| - 1];
      MaxLengthIsMaximum(init);
      assert forall k :: 0 <= k < |init| ==> lines[k] == init[k];
      if init != [] && MaxLength(lines) == MaxLength(init) {
        var k :| 0 <= k < |init| && Utf16Length(init[k]) == MaxLength(init);
        assert Utf16Length(lines[k]) == MaxLength(lines);
      }
    }
  }

  /** getColumnsCount(n) never exceeds getColumnsCount(). */
  lemma ColumnAtMostWidest(text: string, n: nat)
    requires n < |Lines(text)|
    ensures Utf16Length(Lines(text)[n]) <= MaxLength(Lines(text))
  {
    MaxLengthIsMaximum(Lines(text));
  }

  /** getLinesCount(c) lies between 0 and getLinesCount(), counts every line
      for a negative column, and does not grow as the column grows. */
  lemma {:induction false} CountLongerBounds(lines: seq<string>, c1: int, c2: int)
    requires c1 <= c2
    ensures CountLonger(lines, c2) <= CountLonger(lines, c1) <= |lines|
    ensures c1 < 0 ==> CountLonger(lines, c1) == |lines|
    decreases |lines|
  {
    if lines != [] {
      CountLongerBounds(lines[..|lines| - 1], c1, c2);
    }
  }

  /** No line is longer than the longest one. */
  lemma {:induction false} NoneLongerThanWidest(lines: seq<string>)
    ensures CountLonger(lines, MaxLength(lines)) == 0
  {
    MaxLengthIsMaximum(lines);
    NoneLongerThan(lines, MaxLength(lines));
  }

  lemma {:induction false} NoneLongerThan(lines: seq<string>, c: int)
    requires forall k :: 0 <= k < |lines| ==> Utf16Length(lines[k]) <= c
    ensures CountLonger(lines, c) == 0
    decreases |lines|
  {
    if lines != [] {
      NoneLongerThan(lines[..|lines| - 1], c);
    }
  }

  /** The two corner cases of getLinesCount(): the empty text has one line,
      a text made only of line breaks has none. */
  lemma LinesCountCorners(text: string)
    ensures |Lines("")| == 1
    ensures text != [] && (forall i :: 0 <= i < |text| ==> text[i] == '\n') ==> |Lines(text)| == 0
  {
    JavaSplitCorners(text, '\n');
  }

  /** Each notification numbers a line, from 1, that differs from the
      text; there are at most as many as lines. */
  lemma {:induction false} NotificationsNumberLines(lines: seq<string>, text: string)
    ensures |Notifications(lines, text)| <= |lines|
    ensures forall j :: 0 <= j < |Notifications(lines, text)| ==>
              1 <= Notifications(lines, text)[j] <= |lines| && lines[Notifications(lines, text)[j] - 1] != text
    decreases |lines|
  {
    if lines != [] {
      var init := lines[..|lines| - 1];
      NotificationsNumberLines(init, text);
      assert forall k :: 0 <= k < |init| ==> lines[k] == init[k];
    }
  }

  /** Notifications are exactly the numbers i + 1 of the lines that differ
      from the text, in ascending order. */
  lemma {:induction false} NotificationsAscending(lines: seq<string>, text: string)
    ensures |Notifications(lines, text)| <= |lines|
    ensures forall j :: 0 <= j < |Notifications(lines, text)| ==>
              1 <= Notifications(lines, text)[j] <= |lines| && lines[Notifications(lines, text)[j] - 1] != text
    ensures forall j, l :: 0 <= j < l < |Notifications(lines, text)| ==>
              Notifications(lines, text)[j] < Notifications(lines, text)[l]
    ensures forall k :: 0 <= k < |lines| && lines[k] != text ==> k + 1 in Notifications(lines, text)
    decreases |lines|
  {
    NotificationsNumberLines(lines, text);
    if lines != [] {
      var init := lines[..|lines| - 1];
      NotificationsAscending(init, text);
      assert forall k :: 0 <= k < |init| ==> lines[k] == init[k];
      var before := Notifications(init, text);
      assert forall j :: 0 <= j < |before| ==> before[j] <= |init|;
    }
  }


  /** A text with a line break is reported whole: every line differs from
      it, so 1..getLinesCount() are reported. */
  lemma {:induction false} MultilineReportsEveryLine(lines: seq<string>, text: string)
    requires '\n' in text
    requires forall k :: 0 <= k < |lines| ==> '\n' !in lines[k]
    ensures |Notifications(lines, text)| == |lines|
    ensures forall j :: 0 <= j < |lines| ==> Notifications(lines, text)[j] == j + 1
    decreases |lines|
  {
    if lines != [] {
      MultilineReportsEveryLine(lines[..|lines| - 1], text);
      assert lines[|lines| - 1] != text;
    }
  }

  /** A text without a line break is one line equal to the text, so nothing
      is reported; with a break, each line i is reported as i + 1. */
  lemma ReportsIffMultiline(text: string)
    ensures '\n' !in text ==> Notifications(Lines(text), text) == []
    ensures '\n' in text ==>
              var reported := Notifications(Lines(text), text);
              |reported| == |Lines(text)| && forall j :: 0 <= j < |reported| ==> reported[j] == j + 1
  {
    if '\n' in text {
      MultilineReportsEveryLine(Lines(text), text);
    } else {
      assert Lines(text) == [text];
      assert Lines(text)[..0] == [];
    }
  }
}
