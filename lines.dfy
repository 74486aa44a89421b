/**
 * Line structure of text on the wire and in the value files, as
 * `java.io.BufferedReader.readLine` sees it. Only '\n' is treated as a line
 * terminator.
 */
module Lines {
  import opened Wrappers

  /** A string that fits on one line. */
  predicate IsLine(s: string) {
    '\n' !in s
  }

  /** Each line followed by its '\n' terminator. */
  function JoinLines(ls: seq<string>): string {
    if ls == [] then "" else ls[0] + "\n" + JoinLines(ls[1..])
  }

  lemma JoinThree(a: string, b: string, c: string)
    ensures JoinLines([a, b, c]) == a + "\n" + b + "\n" + c + "\n"
  {
    assert [a, b, c][1..] == [b, c];
    assert [b, c][1..] == [c];
    assert [c][1..] == [];
    assert JoinLines([c]) == c + "\n";
    assert JoinLines([b, c]) == b + "\n" + (c + "\n");
    assert JoinLines([a, b, c]) == a + "\n" + (b + "\n" + (c + "\n"));
  }

  lemma JoinFour(a: string, b: string, c: string, d: string)
    ensures JoinLines([a, b, c, d]) == a + "\n" + b + "\n" + c + "\n" + d + "\n"
  {
    assert [a, b, c, d][1..] == [b, c, d];
    JoinThree(b, c, d);
  }

  /** The index of the first '\n' in `s`, or `|s|` when there is none. */
  function LineEnd(s: string): (i: nat)
    ensures i <= |s|
    ensures forall j :: 0 <= j < i ==> s[j] != '\n'
    ensures i < |s| ==> s[i] == '\n'
  {
    if s == [] || s[0] == '\n' then 0 else 1 + LineEnd(s[1..])
  }

  /**
   * The lines successive `readLine` calls return until end of stream: the
   * text between terminators, plus a final unterminated fragment when it is
   * not empty.
   */
  function ReadLines(s: string): seq<string>
    decreases |s|
  {
    if s == [] then []
    else
      var i := LineEnd(s);
      if i == |s| then [s] else [s[..i]] + ReadLines(s[i + 1..])
  }

  /** What a single `readLine` returns on `s`: null on an empty stream. */
  function FirstLine(s: string): Option<string> {
    if s == [] then None else Some(s[..LineEnd(s)])
  }

  lemma LineEndOfJoin(a: string, b: string)
    requires IsLine(a)
    ensures LineEnd(a + "\n" + b) == |a|
  {
    var s := a + "\n" + b;
    assert s[|a|] == '\n';
  }

  /** One terminated line is split off the front. */
  lemma ReadLinesCons(a: string, b: string)
    requires IsLine(a)
    ensures ReadLines(a + "\n" + b) == [a] + ReadLines(b)
  {
    var s := a + "\n" + b;
    LineEndOfJoin(a, b);
    assert s[..|a|] == a;
    assert s[|a| + 1..] == b;
  }

  /** Reading back the lines of joined text gives the same lines. */
  lemma {:induction false} ReadLinesOfJoinLines(ls: seq<string>)
    requires forall k :: 0 <= k < |ls| ==> IsLine(ls[k])
    ensures ReadLines(JoinLines(ls)) == ls
  {
    if ls != [] {
      ReadLinesCons(ls[0], JoinLines(ls[1..]));
      ReadLinesOfJoinLines(ls[1..]);
      assert ls == [ls[0]] + ls[1..];
    }
  }

  /** A one-line, non-empty file reads back as itself. */
  lemma FirstLineOfLine(v: string)
    requires IsLine(v) && v != ""
    ensures FirstLine(v) == Some(v)
  {
    assert LineEnd(v) == |v|;
    assert v[..|v|] == v;
  }
}
