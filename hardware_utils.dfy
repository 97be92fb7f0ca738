/** utils/HardwareUtils.java: what the library reports about the device.
    Build's strings, the directory listing of /sys/devices/system/cpu, the
    lines of /proc/cpuinfo and Runtime.availableProcessors() come from the
    system; here they are parameters. The class's static fields, filled in
    lazily, are the fields of one HardwareUtils object. */
module HardwareInfo {
  import opened JavaLang

  // ------------------------------------------------------- device strings

  /** getDeviceModelName(): "<MANUFACTURER> <MODEL>". A manufacturer
      without a space is the first space-separated word of it. */
  function DeviceModelName(manufacturer: string, model: string): (s: string)
    ensures ' ' !in manufacturer ==> SplitAll(s, ' ') == [manufacturer] + SplitAll(model, ' ')
  {
    if ' ' in manufacturer then manufacturer + " " + model
    else (SplitAllAfterPiece(manufacturer, ' ', model); manufacturer + " " + model)
  }

  /** getAndroidVersion(): "Android <RELEASE>"; the release follows the
      prefix. */
  function AndroidVersion(release: string): (s: string)
    ensures StartsWith(s, "Android ") && s[8..] == release
  {
    "Android " + release
  }

  /** getCPUType(): "<CPU_ABI>/<CPU_ABI2>". Two ABIs without '/' are the
      two halves around it. */
  function CpuType(abi: string, abi2: string): (s: string)
    ensures '/' !in abi && '/' !in abi2 ==> SplitAll(s, '/') == [abi, abi2]
  {
    if '/' in abi || '/' in abi2 then abi + "/" + abi2
    else (SplitAllAfterPiece(abi, '/', abi2); SplitAllWithout(abi2, '/'); abi + "/" + abi2)
  }

  // ---------------------------------------------------------- cpu cores

  /** The file filter: the whole name matches cpu[0-9]+. */
  predicate IsCoreName(name: string)
  {
    |name| > 3 && name[..3] == "cpu" && forall i :: 3 <= i < |name| ==> IsDigit(name[i])
  }

  /** The per-core directories are named after their index: "cpu"
      followed by a non-negative number passes the filter, a negative one
      does not. */
  lemma CoreNameOf(n: int)
    ensures IsCoreName("cpu" + IntToString(n)) <==> n >= 0
  {
    var s := "cpu" + IntToString(n);
    assert s[..3] == "cpu";
    if n >= 0 {
      var d := Digits(n);
      assert s == "cpu" + d;
      forall i | 3 <= i < |s|
        ensures IsDigit(s[i])
      {
        assert s[i] == d[i - 3];
      }
    } else {
      assert s[3] == '-';
    }
  }

  /** The other entries of the directory do not pass the filter. */
  lemma OtherEntriesAreNotCores()
    ensures !IsCoreName("cpu") && !IsCoreName("cpufreq") && !IsCoreName("cpuidle")
    ensures !IsCoreName("online") && !IsCoreName("possible")
  {
    assert !IsDigit("cpufreq"[3]);
    assert !IsDigit("cpuidle"[3]);
    assert "online"[..3] != "cpu" by { assert "online"[0] != 'c'; }
    assert "possible"[..3] != "cpu" by { assert "possible"[0] != 'c'; }
  }

  /** listFiles(filter): the entries that pass the filter, in listing order. */
  function CoreEntries(names: seq<string>): (r: seq<string>)
    ensures |r| <= |names|
    ensures forall n :: n in r <==> n in names && IsCoreName(n)
  {
    if names == [] then []
    else if IsCoreName(names[0]) then [names[0]] + CoreEntries(names[1..])
    else CoreEntries(names[1..])
  }

  /** The directories cpu0 … cpu(k-1). */
  function CpuDirectories(k: nat): seq<string>
  {
    seq(k, i => "cpu" + IntToString(i))
  }

  lemma {:induction false} CoreEntriesAppend(a: seq<string>, b: seq<string>)
    ensures CoreEntries(a + b) == CoreEntries(a) + CoreEntries(b)
    decreases |a|
  {
    if a == [] {
      assert a + b == b;
    } else {
      assert (a + b)[0] == a[0] && (a + b)[1..] == a[1..] + b;
      CoreEntriesAppend(a[1..], b);
      if IsCoreName(a[0]) {
        assert [a[0]] + (CoreEntries(a[1..]) + CoreEntries(b)) == ([a[0]] + CoreEntries(a[1..])) + CoreEntries(b);
      }
    }
  }

  lemma {:induction false} NoCoreEntries(names: seq<string>)
    requires forall i :: 0 <= i < |names| ==> !IsCoreName(names[i])
    ensures CoreEntries(names) == []
    decreases |names|
  {
    if names != [] {
      assert !IsCoreName(names[0]);
      NoCoreEntries(names[1..]);
    }
  }

  lemma {:induction false} AllCoreEntries(names: seq<string>)
    requires forall i :: 0 <= i < |names| ==> IsCoreName(names[i])
    ensures CoreEntries(names) == names
    decreases |names|
  {
    if names != [] {
      assert IsCoreName(names[0]);
      AllCoreEntries(names[1..]);
      assert [names[0]] + names[1..] == names;
    }
  }

  /** A directory with k per-core entries, whatever else it holds, counts
      k cores. */
  lemma CountsEachCore(k: nat, others: seq<string>)
    requires forall i :: 0 <= i < |others| ==> !IsCoreName(others[i])
    ensures |CoreEntries(CpuDirectories(k) + others)| == k
  {
    var d := CpuDirectories(k);
    forall i | 0 <= i < |d|
      ensures IsCoreName(d[i])
    {
      CoreNameOf(i);
    }
    AllCoreEntries(d);
    CoreEntriesAppend(d, others);
    NoCoreEntries(others);
  }

  // ------------------------------------------------------------ cpuinfo

  /** A CPU field: Unknown while it still holds the "unknown" literal it
      was initialised with, Read once a line of /proc/cpuinfo set it. The
      getters compare with ==, by reference, so a value read from the file
      never counts as unknown, even one spelled "unknown". */
  datatype CpuField = Unknown | Read(text: string)

  /** The string the field holds. */
  function Shown(f: CpuField): string
  {
    match f
    case Unknown => "unknown"
    case Read(text) => text
  }

  datatype CpuInfo = CpuInfo(features: CpuField, name: CpuField)

  /** A trimmed line that sets CPUFeatures. */
  predicate IsFeaturesLine(t: string)
  {
    StartsWith(t, "Features") || StartsWith(t, "flags")
  }

  /** A trimmed line that sets CPUName: only when it does not set the
      features. */
  predicate IsNameLine(t: string)
  {
    !IsFeaturesLine(t) && (StartsWith(t, "Hardware") || StartsWith(t, "model name"))
  }

  /** line.split(":")[1]: the text between the first and the second ':',
      or an ArrayIndexOutOfBoundsException when split leaves fewer than two
      pieces. */
  function SecondField(t: string): Result<string>
  {
    var pieces := JavaSplit(t, ':');
    if |pieces| < 2 then Throws(IndexOutOfBounds) else Ok(pieces[1])
  }

  /** A "key: value" line yields its value, spaces included; a line with
      nothing after the colon throws. */
  lemma SecondFieldOf(key: string, value: string)
    requires ':' !in key && ':' !in value && key != ""
    ensures SecondField(key + ":" + value) == if value == "" then Throws(IndexOutOfBounds) else Ok(value)
  {
    SplitKeyValue(key, ':', value);
  }

  /** One pass of the read loop on one line. */
  function LineStep(line: string, info: CpuInfo): Result<CpuInfo>
  {
    var t := Trim(line);
    if IsFeaturesLine(t) then
      match SecondField(t)
      case Ok(f) => Ok(info.(features := Read(f)))
      case Throws(e) => Throws(e)
    else if IsNameLine(t) then
      match SecondField(t)
      case Ok(n) => Ok(info.(name := Read(n)))
      case Throws(e) => Throws(e)
    else Ok(info)
  }

  /** The fields after the loop, and the exception that ended it early. */
  datatype Scanned = Scanned(info: CpuInfo, failure: Option<Exception>)

  /** The read loop over lines: an exception leaves the fields as the lines
      before it set them. */
  function Scan(lines: seq<string>, start: CpuInfo): Scanned
    decreases |lines|
  {
    if lines == [] then Scanned(start, None)
    else
      var before := Scan(lines[..|lines| - 1], start);
      if before.failure.Some? then before
      else match LineStep(lines[|lines| - 1], before.info)
        case Ok(next) => Scanned(next, None)
        case Throws(e) => Scanned(before.info, Some(e))
  }

  /** What the StringBuilder holds: every line followed by "\n". */
  function Text(lines: seq<string>): string
  {
    if lines == [] then "" else lines[0] + "\n" + Text(lines[1..])
  }

  lemma {:induction false} TextAppend(lines: seq<string>, line: string)
    ensures Text(lines + [line]) == Text(lines) + line + "\n"
    decreases |lines|
  {
    if lines != [] {
      assert (lines + [line])[1..] == lines[1..] + [line];
      TextAppend(lines[1..], line);
    }
  }

  lemma TextNext(lines: seq<string>, i: nat)
    requires i < |lines|
    ensures Text(lines[..i + 1]) == Text(lines[..i]) + lines[i] + "\n"
  {
    assert lines[..i + 1] == lines[..i] + [lines[i]];
    TextAppend(lines[..i], lines[i]);
  }

  /** The returned text holds the lines in order: split at "\n" it gives
      them back, with the empty piece after the last newline. */
  lemma {:induction false} TextLines(lines: seq<string>)
    requires forall k :: 0 <= k < |lines| ==> '\n' !in lines[k]
    ensures SplitAll(Text(lines), '\n') == lines + [""]
    decreases |lines|
  {
    if lines != [] {
      TextLines(lines[1..]);
      SplitAllAfterPiece(lines[0], '\n', Text(lines[1..]));
      assert Text(lines) == lines[0] + ['\n'] + Text(lines[1..]);
      assert [lines[0]] + lines[1..] == lines;
    }
  }

  /** One more line of a scan that has not failed so far. */
  lemma ScanNext(lines: seq<string>, i: nat, start: CpuInfo, info: CpuInfo)
    requires i < |lines| && Scan(lines[..i], start) == Scanned(info, None)
    ensures Scan(lines[..i + 1], start) == match LineStep(lines[i], info)
                                             case Ok(next) => Scanned(next, None)
                                             case Throws(e) => Scanned(info, Some(e))
  {
    assert lines[..i + 1][..i] == lines[..i];
  }

  /** Once a line has thrown, later lines change nothing. */
  lemma {:induction false} ScanStopsAtFailure(lines: seq<string>, n: nat, start: CpuInfo)
    requires n <= |lines| && Scan(lines[..n], start).failure.Some?
    ensures Scan(lines, start) == Scan(lines[..n], start)
    decreases |lines|
  {
    if n < |lines| {
      var init := lines[..|lines| - 1];
      assert init[..n] == lines[..n];
      ScanStopsAtFailure(init, n, start);
    } else {
      assert lines[..n] == lines;
    }
  }

  /** A scan that ran to the end ran to the end of every prefix. */
  lemma ScanPrefixSucceeds(lines: seq<string>, start: CpuInfo)
    requires lines != [] && Scan(lines, start).failure.None?
    ensures Scan(lines[..|lines| - 1], start).failure.None?
  {
  }

  /** The last line of a scan that ran to the end took a successful step
      from where the earlier lines left the fields. */
  lemma ScanLastStep(lines: seq<string>, start: CpuInfo)
    requires lines != [] && Scan(lines, start).failure.None?
    ensures Scan(lines[..|lines| - 1], start).failure.None?
    ensures LineStep(lines[|lines| - 1], Scan(lines[..|lines| - 1], start).info) == Ok(Scan(lines, start).info)
  {
  }

  /** A successful step sets the field its line names, to the second
      field of the line, and keeps the other one. */
  lemma StepFields(line: string, info: CpuInfo)
    requires LineStep(line, info).Ok?
    ensures IsFeaturesLine(Trim(line)) ==>
              && SecondField(Trim(line)).Ok?
              && LineStep(line, info).value.features == Read(SecondField(Trim(line)).value)
    ensures !IsFeaturesLine(Trim(line)) ==> LineStep(line, info).value.features == info.features
    ensures IsNameLine(Trim(line)) ==>
              && SecondField(Trim(line)).Ok?
              && LineStep(line, info).value.name == Read(SecondField(Trim(line)).value)
    ensures !IsNameLine(Trim(line)) ==> LineStep(line, info).value.name == info.name
  {
  }

  /** When the loop runs to the end, CPUFeatures holds the value of the
      last features line. */
  lemma {:induction false} LastFeaturesLineWins(lines: seq<string>, start: CpuInfo, k: nat)
    requires Scan(lines, start).failure.None?
    requires k < |lines| && IsFeaturesLine(Trim(lines[k]))
    requires forall j :: k < j < |lines| ==> !IsFeaturesLine(Trim(lines[j]))
    ensures SecondField(Trim(lines[k])).Ok?
    ensures Scan(lines, start).info.features == Read(SecondField(Trim(lines[k])).value)
    decreases |lines|
  {
    var init := lines[..|lines| - 1];
    ScanLastStep(lines, start);
    StepFields(lines[|lines| - 1], Scan(init, start).info);
    if k < |lines| - 1 {
      LastFeaturesLineWins(init, start, k);
    }
  }

  /** When the loop runs to the end without a features line, CPUFeatures
      is as it was. */
  lemma {:induction false} FeaturesKeptWithoutLine(lines: seq<string>, start: CpuInfo)
    requires Scan(lines, start).failure.None?
    requires forall j :: 0 <= j < |lines| ==> !IsFeaturesLine(Trim(lines[j]))
    ensures Scan(lines, start).info.features == start.features
    decreases |lines|
  {
    if lines != [] {
      ScanLastStep(lines, start);
      StepFields(lines[|lines| - 1], Scan(lines[..|lines| - 1], start).info);
      FeaturesKeptWithoutLine(lines[..|lines| - 1], start);
    }
  }

  /** When the loop runs to the end, CPUName holds the value of the last
      name line. */
  lemma {:induction false} LastNameLineWins(lines: seq<string>, start: CpuInfo, k: nat)
    requires Scan(lines, start).failure.None?
    requires k < |lines| && IsNameLine(Trim(lines[k]))
    requires forall j :: k < j < |lines| ==> !IsNameLine(Trim(lines[j]))
    ensures SecondField(Trim(lines[k])).Ok?
    ensures Scan(lines, start).info.name == Read(SecondField(Trim(lines[k])).value)
    decreases |lines|
  {
    var init := lines[..|lines| - 1];
    ScanLastStep(lines, start);
    StepFields(lines[|lines| - 1], Scan(init, start).info);
    if k < |lines| - 1 {
      LastNameLineWins(init, start, k);
    }
  }

  /** When the loop runs to the end without a name line, CPUName is as it
      was. */
  lemma {:induction false} NameKeptWithoutLine(lines: seq<string>, start: CpuInfo)
    requires Scan(lines, start).failure.None?
    requires forall j :: 0 <= j < |lines| ==> !IsNameLine(Trim(lines[j]))
    ensures Scan(lines, start).info.name == start.name
    decreases |lines|
  {
    if lines != [] {
      ScanLastStep(lines, start);
      StepFields(lines[|lines| - 1], Scan(lines[..|lines| - 1], start).info);
      NameKeptWithoutLine(lines[..|lines| - 1], start);
    }
  }

  /** The static fields of HardwareUtils. */
  class HardwareUtils {
    var coresCount: int
    var cpu: CpuInfo

    /** The static initialiser: the count is -1 and both fields "unknown". */
    constructor ()
      ensures coresCount == -1 && cpu == CpuInfo(Unknown, Unknown)
    {
      coresCount := -1;
      cpu := CpuInfo(Unknown, Unknown);
    }

    /** readCPUInfo(): None when /proc/cpuinfo cannot be opened (the
        IOException and the NullPointerException of the close are caught,
        and "" is returned). Otherwise every line is appended with "\n" and
        its trimmed form may set a field; a line that has no second field
        throws out of the method, leaving the fields as the earlier lines
        set them. */
    method ReadCpuInfo(cpuinfo: Option<seq<string>>) returns (r: Result<string>)
      modifies this
      ensures coresCount == old(coresCount)
      ensures cpuinfo.None? ==> r == Ok("") && cpu == old(cpu)
      ensures cpuinfo.Some? ==>
                var s := Scan(cpuinfo.value, old(cpu));
                && cpu == s.info
                && r == if s.failure.None? then Ok(Text(cpuinfo.value)) else Throws(s.failure.value)
    {
      if cpuinfo.None? {
        return Ok("");
      }
      var lines := cpuinfo.value;
      ghost var start := cpu;
      var builder := "";
      var i := 0;
      assert lines[..0] == [];
      assert Text(lines[..0]) == builder && Scan(lines[..0], start) == Scanned(cpu, None);
      while i < |lines|
        invariant 0 <= i <= |lines|
        invariant builder == Text(lines[..i])
        invariant Scan(lines[..i], start) == Scanned(cpu, None)
        invariant coresCount == old(coresCount)
      {
        var line := lines[i];
        builder := builder + line + "\n";
        TextNext(lines, i);
        ScanNext(lines, i, start, cpu);
        ghost var step := LineStep(line, cpu);
        line := Trim(line);
        if StartsWith(line, "Features") || StartsWith(line, "flags") {
          var pieces := JavaSplit(line, ':');
          if |pieces| < 2 {
            assert step == Throws(IndexOutOfBounds);
            ScanStopsAtFailure(lines, i + 1, start);
            return Throws(IndexOutOfBounds);
          }
          cpu := cpu.(features := Read(pieces[1]));
          assert step == Ok(cpu);
        } else if StartsWith(line, "Hardware") || StartsWith(line, "model name") {
          var pieces := JavaSplit(line, ':');
          if |pieces| < 2 {
            assert step == Throws(IndexOutOfBounds);
            ScanStopsAtFailure(lines, i + 1, start);
            return Throws(IndexOutOfBounds);
          }
          cpu := cpu.(name := Read(pieces[1]));
          assert step == Ok(cpu);
        } else {
          assert step == Ok(cpu);
        }
        assert Scan(lines[..i + 1], start) == Scanned(cpu, None);
        assert builder == Text(lines[..i + 1]);
        i := i + 1;
      }
      assert lines[..i] == lines;
      r := Ok(builder);
    }

    /** getCPUName(): reads /proc/cpuinfo only while the name is still the
        "unknown" literal, so a device without a name line is read again on
        every call. */
    method GetCpuName(cpuinfo: Option<seq<string>>) returns (r: Result<string>)
      modifies this
      ensures coresCount == old(coresCount)
      ensures old(cpu).name.Read? ==> cpu == old(cpu) && r == Ok(old(cpu).name.text)
      ensures old(cpu).name.Unknown? && cpuinfo.None? ==> cpu == old(cpu) && r == Ok("unknown")
      ensures old(cpu).name.Unknown? && cpuinfo.Some? ==>
                var s := Scan(cpuinfo.value, old(cpu));
                && cpu == s.info
                && r == if s.failure.None? then Ok(Shown(s.info.name)) else Throws(s.failure.value)
    {
      if cpu.name.Unknown? {
        var text := ReadCpuInfo(cpuinfo);
        if text.Throws? {
          return Throws(text.exc);
        }
      }
      r := Ok(Shown(cpu.name));
    }

    /** getCPUFeatures(): the same, for the features. */
    method GetCpuFeatures(cpuinfo: Option<seq<string>>) returns (r: Result<string>)
      modifies this
      ensures coresCount == old(coresCount)
      ensures old(cpu).features.Read? ==> cpu == old(cpu) && r == Ok(old(cpu).features.text)
      ensures old(cpu).features.Unknown? && cpuinfo.None? ==> cpu == old(cpu) && r == Ok("unknown")
      ensures old(cpu).features.Unknown? && cpuinfo.Some? ==>
                var s := Scan(cpuinfo.value, old(cpu));
                && cpu == s.info
                && r == if s.failure.None? then Ok(Shown(s.info.features)) else Throws(s.failure.value)
    {
      if cpu.features.Unknown? {
        var text := ReadCpuInfo(cpuinfo);
        if text.Throws? {
          return Throws(text.exc);
        }
      }
      r := Ok(Shown(cpu.features));
    }

    /** countCPUCores(): the entries of /sys/devices/system/cpu/ that pass
        the filter; when the directory cannot be listed (listFiles returns
        null and .length throws), max(1, availableProcessors()). */
    method CountCpuCores(listing: Option<seq<string>>, availableProcessors: int32)
      modifies this
      ensures cpu == old(cpu)
      ensures listing.Some? ==> coresCount == |CoreEntries(listing.value)|
      ensures listing.None? ==> coresCount >= 1 && coresCount == Max(1, availableProcessors)
    {
      if listing.Some? {
        coresCount := |CoreEntries(listing.value)|;
      } else {
        coresCount := Max(1, availableProcessors);
      }
    }

    /** getCoresCount(): counts only while the count is -1; a count once
        made is never -1, so later calls return it unchanged. */
    method GetCoresCount(listing: Option<seq<string>>, availableProcessors: int32) returns (n: int)
      modifies this
      ensures cpu == old(cpu) && n == coresCount && coresCount != -1
      ensures old(coresCount) != -1 ==> n == old(coresCount)
      ensures old(coresCount) == -1 && listing.Some? ==> n == |CoreEntries(listing.value)|
      ensures old(coresCount) == -1 && listing.None? ==> n >= 1 && n == Max(1, availableProcessors)
    {
      if coresCount == -1 {
        CountCpuCores(listing, availableProcessors);
      }
      n := coresCount;
    }
  }
}
