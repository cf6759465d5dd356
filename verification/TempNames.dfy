/** Paths and the names of temporary files. */
module TempNames {
  /** A file name is text, or something that is not valid text (or no name at all). */
  datatype FileName = Text(text: string) | NotText(id: nat)

  datatype Path = Path(dir: string, name: FileName)

  /** What is fixed for the life of the process: its number, where temporary files for standard
      output go, and every path it is ever asked to write. */
  datatype Process = Process(id: nat, tempDir: string, destinations: set<Path>)

  function Digit(d: nat): (r: char)
    requires d < 10
    ensures '0' <= r <= '9'
  {
    '0' + d as char
  }

  /** Decimal rendering, as in format strings. */
  function Decimal(n: nat): (r: string)
    ensures |r| >= 1 && (|r| == 1 <==> n < 10)
    ensures forall i :: 0 <= i < |r| ==> '0' <= r[i] <= '9'
  {
    if n < 10 then [Digit(n)] else Decimal(n / 10) + [Digit(n % 10)]
  }

  lemma {:induction false} DecimalInjective(m: nat, n: nat)
    requires Decimal(m) == Decimal(n)
    ensures m == n
  {
    var s, t := Decimal(m), Decimal(n);
    assert s[|s| - 1] == Digit(m % 10) && t[|t| - 1] == Digit(n % 10);
    if m >= 10 {
      assert s[..|s| - 1] == Decimal(m / 10) && t[..|t| - 1] == Decimal(n / 10);
      DecimalInjective(m / 10, n / 10);
    }
  }

  /** What a decimal numeral stands for. */
  function Numeral(s: string): (r: int) {
    if s == "" then 0 else Numeral(s[..|s| - 1]) * 10 + (s[|s| - 1] as int - '0' as int)
  }

  /** The rendering reads back, and has no leading zero. */
  lemma {:induction false} DecimalReadsBack(n: nat)
    ensures Numeral(Decimal(n)) == n && (n > 0 ==> Decimal(n)[0] != '0')
  {
    var s := Decimal(n);
    if n >= 10 {
      DecimalReadsBack(n / 10);
      assert s[..|s| - 1] == Decimal(n / 10);
    } else {
      assert s[..|s| - 1] == "";
    }
  }

  const SUFFIX: string := ".tmp"

  /** ".{stem}.{process id}.{sequence}.tmp" */
  function TempName(stem: string, processId: nat, sequence: nat): (r: string) {
    "." + stem + "." + Decimal(processId) + "." + Decimal(sequence) + SUFFIX
  }

  /** Splitting at the last dot is unambiguous when what follows it holds no dot. */
  lemma LastDotSplit(a: string, digits: string, a': string, digits': string)
    requires a + "." + digits == a' + "." + digits'
    requires '.' !in digits && '.' !in digits'
    ensures a == a' && digits == digits'
  {
    var s := a + "." + digits;
    assert s[|a|] == '.' && s[|a'|] == '.';
    assert forall i :: |a| < i < |s| ==> s[i] == digits[i - |a| - 1];
    assert forall i :: |a'| < i < |s| ==> s[i] == digits'[i - |a'| - 1];
    assert |a| == |a'|;
    assert s[..|a|] == a && s[..|a'|] == a';
    assert s[|a| + 1..] == digits && s[|a'| + 1..] == digits';
  }

  /** Different numbers give different names, whatever the stems; equal names agree on everything. */
  lemma TempNameInjective(stem: string, id: nat, sequence: nat, stem': string, id': nat, sequence': nat)
    requires TempName(stem, id, sequence) == TempName(stem', id', sequence')
    ensures stem == stem' && id == id' && sequence == sequence'
  {
    var front, front' := "." + stem + "." + Decimal(id), "." + stem' + "." + Decimal(id');
    var whole, whole' := front + "." + Decimal(sequence), front' + "." + Decimal(sequence');
    assert whole == TempName(stem, id, sequence)[..|TempName(stem, id, sequence)| - |SUFFIX|];
    assert whole' == TempName(stem', id', sequence')[..|TempName(stem', id', sequence')| - |SUFFIX|];
    LastDotSplit(front, Decimal(sequence), front', Decimal(sequence'));
    LastDotSplit("." + stem, Decimal(id), "." + stem', Decimal(id'));
    DecimalInjective(sequence, sequence');
    DecimalInjective(id, id');
    assert ("." + stem)[1..] == stem && ("." + stem')[1..] == stem';
  }

  function LowerAscii(c: char): (r: char) {
    if 'A' <= c <= 'Z' then c - 'A' + 'a' else c
  }

  predicate EqualsIgnoreAsciiCase(s: string, t: string) {
    |s| == |t| && forall i :: 0 <= i < |s| ==> LowerAscii(s[i]) == LowerAscii(t[i])
  }

  /** The whole path is "-" or "stdio" in any case. */
  predicate IsStdio(path: Path) {
    path.dir == "" && path.name.Text? && (path.name.text == "-" || EqualsIgnoreAsciiCase(path.name.text, "stdio"))
  }

  /** Where the temporary file for a destination goes: beside it, or in the temporary directory
      for standard output. */
  function TempPath(process: Process, destination: Path, sequence: nat): (r: Path) {
    if IsStdio(destination) then Path(process.tempDir, Text(TempName("muenc-stdout", process.id, sequence)))
    else
      var stem := if destination.name.Text? then destination.name.text else "muenc-output";
      Path(destination.dir, Text(TempName(stem, process.id, sequence)))
  }

  lemma IgnoringCase(s: string)
    ensures EqualsIgnoreAsciiCase(s, "stdio") <==>
      && |s| == 5 && s[0] in {'s', 'S'} && s[1] in {'t', 'T'} && s[2] in {'d', 'D'} && s[3] in {'i', 'I'}
      && s[4] in {'o', 'O'}
  {
    var t := "stdio";
    assert t[0] == 's' && t[1] == 't' && t[2] == 'd' && t[3] == 'i' && t[4] == 'o';
  }

  /** Only a bare "-", or "stdio" in upper or lower case, means standard input or output. */
  lemma StdioSpelled(path: Path)
    ensures IsStdio(path) <==>
      && path.dir == "" && path.name.Text?
      && var s := path.name.text;
      || s == "-"
      || (&& |s| == 5 && s[0] in {'s', 'S'} && s[1] in {'t', 'T'} && s[2] in {'d', 'D'} && s[3] in {'i', 'I'}
          && s[4] in {'o', 'O'})
  {
    if path.name.Text? {
      IgnoringCase(path.name.text);
    }
  }

  /** Where a temporary file goes and what it is called, spelled out. */
  lemma TempPathSpelled(process: Process, destination: Path, sequence: nat)
    ensures var number := Decimal(process.id) + "." + Decimal(sequence) + ".tmp";
            TempPath(process, destination, sequence)
              == if IsStdio(destination) then Path(process.tempDir, Text(".muenc-stdout." + number))
                 else match destination.name
                      case Text(name) => Path(destination.dir, Text("." + name + "." + number))
                      case NotText(_) => Path(destination.dir, Text(".muenc-output." + number))
  {
    hide Decimal, IsStdio;
    var a, b := Decimal(process.id), Decimal(sequence);
    var stem := if IsStdio(destination) then "muenc-stdout"
                else if destination.name.Text? then destination.name.text else "muenc-output";
    assert "." + "muenc-stdout" + "." == ".muenc-stdout." && "." + "muenc-output" + "." == ".muenc-output.";
    assert TempName(stem, process.id, sequence) == ("." + stem + ".") + (a + "." + b + ".tmp");
  }

  lemma TempPathDirectory(process: Process, destination: Path, sequence: nat)
    ensures TempPath(process, destination, sequence).dir
         == if IsStdio(destination) then process.tempDir else destination.dir
  {
  }

  /** The paths that a temporary file of this process can have. */
  ghost predicate IsTemporary(process: Process, path: Path) {
    exists d, sequence: nat :: d in process.destinations && path == TempPath(process, d, sequence)
  }

  lemma TempPathIsTemporary(process: Process, destination: Path, sequence: nat)
    requires destination in process.destinations
    ensures IsTemporary(process, TempPath(process, destination, sequence))
  {
  }

  lemma TempPathIsNotStdio(process: Process, destination: Path, sequence: nat)
    ensures !IsStdio(TempPath(process, destination, sequence))
  {
    var t := TempPath(process, destination, sequence).name.text;
    assert t[0] == '.' && |t| >= 9;
  }

  /** No destination is the path of a temporary file for another one. */
  ghost predicate ClashFree(process: Process) {
    forall d :: d in process.destinations ==> !IsTemporary(process, d)
  }

  /** A temporary name is longer than the name it is made from. */
  lemma TempPathIsNotDestination(process: Process, destination: Path, sequence: nat)
    ensures TempPath(process, destination, sequence) != destination
  {
    if IsStdio(destination) {
      TempPathIsNotStdio(process, destination, sequence);
    } else if destination.name.Text? {
      assert |TempName(destination.name.text, process.id, sequence)| > |destination.name.text|;
    }
  }

  /** A process that writes a single file, whatever that is called, is free of clashes. */
  lemma OneDestinationIsClashFree(process: Process, destination: Path)
    requires process.destinations == {destination}
    ensures ClashFree(process)
  {
    hide TempPath;
    if IsTemporary(process, destination) {
      var sequence: nat :| destination == TempPath(process, destination, sequence);
      TempPathIsNotDestination(process, destination, sequence);
    }
  }

  /** Numbers drawn once each never lead two outputs to one path. */
  lemma TempPathsDiffer(process: Process, destination: Path, sequence: nat, destination': Path, sequence': nat)
    requires sequence != sequence'
    ensures TempPath(process, destination, sequence) != TempPath(process, destination', sequence')
  {
    var name := TempPath(process, destination, sequence).name.text;
    var name' := TempPath(process, destination', sequence').name.text;
    var stem :| name == TempName(stem, process.id, sequence);
    var stem' :| name' == TempName(stem', process.id, sequence');
    if name == name' {
      TempNameInjective(stem, process.id, sequence, stem', process.id, sequence');
    }
  }

  predicate HasSuffix(path: Path) {
    path.name.Text? && |path.name.text| >= 4 && path.name.text[|path.name.text| - 4..] == SUFFIX
  }

  /** A name that does not end in ".tmp" is no temporary name. */
  lemma OtherSuffixIsNotTemporary(process: Process, path: Path)
    requires !HasSuffix(path)
    ensures !IsTemporary(process, path)
  {
    forall d, sequence: nat | d in process.destinations
      ensures path != TempPath(process, d, sequence)
    {
      var t := TempPath(process, d, sequence).name.text;
      assert t[|t| - 4..] == SUFFIX;
    }
  }

  /** A process that writes no file ending in ".tmp" is free of clashes. */
  lemma OtherSuffixIsClashFree(process: Process)
    requires forall d :: d in process.destinations ==> !HasSuffix(d)
    ensures ClashFree(process)
  {
    hide IsTemporary, HasSuffix;
    forall d | d in process.destinations
      ensures !IsTemporary(process, d)
    {
      OtherSuffixIsNotTemporary(process, d);
    }
  }
}
