/** File reads as the generators see them. The file system is a map from
    path to raw content; FileUtils.readFileIntoString reads a file line by
    line with BufferedReader.readLine and terminates every line it read with
    "\n", and yields "" when the file cannot be read. */
module Files {

  predicate IsBreak(c: char) {
    c == '\n' || c == '\r'
  }

  /** The length of the first line of s: the index of the first '\n' or '\r', or |s|. */
  function LineEnd(s: string): (k: nat)
    ensures k <= |s|
    ensures forall i :: 0 <= i < k ==> !IsBreak(s[i])
    ensures k < |s| ==> IsBreak(s[k])
    decreases |s|
  {
    if s == [] || IsBreak(s[0]) then 0 else 1 + LineEnd(s[1..])
  }

  /** The lines BufferedReader.readLine returns, one after the other, until it
      returns null: a line ends at "\n", "\r" or "\r\n", and a last line
      without a terminator is still a line. */
  function ReadLines(s: string): (lines: seq<string>)
    ensures forall i :: 0 <= i < |lines| ==> forall j :: 0 <= j < |lines[i]| ==> !IsBreak(lines[i][j])
    decreases |s|
  {
    if s == [] then []
    else
      var k := LineEnd(s);
      var next := if k == |s| then k
                  else if s[k] == '\r' && k + 1 < |s| && s[k + 1] == '\n' then k + 2
                  else k + 1;
      [s[..k]] + ReadLines(s[next..])
  }

  /** Every line followed by "\n". */
  function Terminated(lines: seq<string>): string
  {
    if lines == [] then [] else lines[0] + "\n" + Terminated(lines[1..])
  }

  /** The text readFileIntoString returns for a file with raw content s. */
  function ReadText(s: string): string {
    Terminated(ReadLines(s))
  }

  /** readFileIntoString(path): the text of the file, or "" when it is missing. */
  function ReadFile(fs: map<string, string>, path: string): (r: string)
    ensures path !in fs ==> r == []
    ensures path in fs ==> r == ReadText(fs[path])
  {
    if path in fs then ReadText(fs[path]) else []
  }

  lemma {:induction false} TerminatedShape(lines: seq<string>)
    ensures var t := Terminated(lines); t == [] || t[|t| - 1] == '\n'
    ensures lines == [] <==> Terminated(lines) == []
  {
    if lines != [] {
      TerminatedShape(lines[1..]);
    }
  }

  /** Reading text that is already line-terminated gives back its lines. */
  lemma {:induction false} ReadLinesTerminated(lines: seq<string>)
    requires forall i :: 0 <= i < |lines| ==> forall j :: 0 <= j < |lines[i]| ==> !IsBreak(lines[i][j])
    ensures ReadLines(Terminated(lines)) == lines
  {
    if lines != [] {
      var s := Terminated(lines);
      var l := lines[0];
      var rest := Terminated(lines[1..]);
      assert s == l + "\n" + rest;
      assert LineEnd(s) == |l| by {
        LineEndAt(s, |l|);
      }
      assert s[..|l|] == l;
      assert s[|l| + 1..] == rest;
      ReadLinesTerminated(lines[1..]);
    }
  }

  lemma {:induction false} LineEndAt(s: string, k: nat)
    requires k < |s| && IsBreak(s[k])
    requires forall i :: 0 <= i < k ==> !IsBreak(s[i])
    ensures LineEnd(s) == k
    decreases k
  {
    if k > 0 {
      LineEndAt(s[1..], k - 1);
    }
  }

  /** Reading a file's text a second time changes nothing: the text is
      already in the form readFileIntoString produces. */
  lemma ReadTextIdempotent(s: string)
    ensures ReadText(ReadText(s)) == ReadText(s)
  {
    ReadLinesTerminated(ReadLines(s));
  }
}
