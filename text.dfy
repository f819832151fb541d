/**
 * The pieces of Go's `strings` and `bufio` packages that the todo store
 * relies on: whitespace trimming (`strings.TrimSpace`), searching for a
 * character (`strings.Index`) and splitting a file into lines the way
 * `bufio.ScanLines` does.
 */
module Text {
  import opened Wrappers

  /** Go's `unicode.IsSpace`: the Latin-1 spaces and the Unicode White_Space set. */
  predicate IsSpace(c: char) {
    var n := c as int;
    (0x09 <= n <= 0x0D) || n == 0x20 || n == 0x85 || n == 0xA0 || n == 0x1680
    || (0x2000 <= n <= 0x200A) || n == 0x2028 || n == 0x2029 || n == 0x202F
    || n == 0x205F || n == 0x3000
  }

  /** Drops leading white space: the result is the longest suffix that does not start with a space. */
  function TrimLeft(s: string): (r: string)
    ensures |r| <= |s| && r == s[|s| - |r|..]
    ensures forall i :: 0 <= i < |s| - |r| ==> IsSpace(s[i])
    ensures r != [] ==> !IsSpace(r[0])
  {
    if s != [] && IsSpace(s[0]) then TrimLeft(s[1..]) else s
  }

  /** Drops trailing white space: the result is the longest prefix that does not end with a space. */
  function TrimRight(s: string): (r: string)
    ensures |r| <= |s| && r == s[..|r|]
    ensures forall i :: |r| <= i < |s| ==> IsSpace(s[i])
    ensures r != [] ==> !IsSpace(r[|r| - 1])
  {
    if s != [] && IsSpace(s[|s| - 1]) then TrimRight(s[..|s| - 1]) else s
  }

  /** `s[lo..hi]` is what is left of `s` once white space is cut from both ends. */
  predicate SpaceOutside(s: string, lo: int, hi: int)
    requires 0 <= lo <= hi <= |s|
  {
    (forall i :: 0 <= i < lo ==> IsSpace(s[i])) && (forall i :: hi <= i < |s| ==> IsSpace(s[i]))
  }

  /** `strings.TrimSpace`: the slice of `s` left once white space is cut from both ends. */
  function TrimSpace(s: string): (r: string)
    ensures exists lo, hi :: 0 <= lo <= hi <= |s| && r == s[lo..hi] && SpaceOutside(s, lo, hi)
    ensures r != [] ==> !IsSpace(r[0]) && !IsSpace(r[|r| - 1])
    ensures (forall i :: 0 <= i < |s| ==> !IsSpace(s[i])) ==> r == s
  {
    var l := TrimLeft(s);
    var r := TrimRight(l);
    TrimSpaceCut(s, l, r);
    r
  }

  /** Cutting a white-space prefix and then a white-space suffix leaves a slice with only white space outside it. */
  lemma TrimSpaceCut(s: string, l: string, r: string)
    requires |l| <= |s| && l == s[|s| - |l|..] && forall i :: 0 <= i < |s| - |l| ==> IsSpace(s[i])
    requires |r| <= |l| && r == l[..|r|] && forall i :: |r| <= i < |l| ==> IsSpace(l[i])
    ensures var lo := |s| - |l|; r == s[lo..lo + |r|] && SpaceOutside(s, lo, lo + |r|)
  {
    var lo := |s| - |l|;
    assert r == s[lo..lo + |r|];
    forall i | lo + |r| <= i < |s| ensures IsSpace(s[i]) {
      assert s[i] == l[i - lo];
    }
  }

  /** `strings.Index` for one character: the position of its first occurrence, if any. */
  function IndexOf(s: string, c: char): (r: Option<nat>)
    ensures r.Some? ==> r.value < |s| && s[r.value] == c && c !in s[..r.value]
    ensures r.None? <==> c !in s
  {
    if s == [] then None
    else if s[0] == c then Some(0)
    else match IndexOf(s[1..], c)
      case None => None
      case Some(i) => assert s[1..][..i] == s[1..i + 1]; Some(i + 1)
  }

  /** `dropCR` of `bufio.ScanLines`: removes one carriage return at the end of a line. */
  function DropCR(s: string): string {
    if |s| > 0 && s[|s| - 1] == '\r' then s[..|s| - 1] else s
  }

  /**
   * The lines `bufio.Scanner` yields with `ScanLines`: the text is cut at
   * every '\n', a trailing '\r' is dropped from each line, and a last line
   * without a terminating '\n' is still returned (an empty one is not).
   */
  function ScanLines(data: string): (lines: seq<string>)
    ensures data == [] <==> lines == []
    decreases |data|
  {
    if data == [] then []
    else match IndexOf(data, '\n')
      case Some(i) => [DropCR(data[..i])] + ScanLines(data[i + 1..])
      case None => [DropCR(data)]
  }

  /** A line ending in '\n' is read back as one line, and the rest of the text is scanned on its own. */
  lemma ScanLinesCons(line: string, rest: string)
    requires '\n' !in line
    ensures ScanLines(line + "\n" + rest) == [DropCR(line)] + ScanLines(rest)
  {
    var data := line + "\n" + rest;
    assert data[|line|] == '\n';
    assert data[..|line|] == line;
    assert data[|line| + 1..] == rest;
  }

  /** The text a buffered writer produces for a sequence of lines: each line followed by '\n'. */
  function JoinLines(lines: seq<string>): string {
    if lines == [] then []
    else JoinLines(lines[..|lines| - 1]) + lines[|lines| - 1] + "\n"
  }

  /** Joining a first line and the rest writes the first line, its '\n', then the rest. */
  lemma {:induction false} JoinLinesCons(line: string, rest: seq<string>)
    ensures JoinLines([line] + rest) == line + "\n" + JoinLines(rest)
    decreases |rest|
  {
    if rest != [] {
      var init := rest[..|rest| - 1];
      assert ([line] + rest)[..|rest|] == [line] + init;
      JoinLinesCons(line, init);
    }
  }

  /** A line the scanner returns unchanged: no '\n' inside and no '\r' at its end. */
  predicate Scannable(line: string) {
    '\n' !in line && DropCR(line) == line
  }

  /** Scanning joined lines gives back the lines, one per '\n' written. */
  lemma {:induction false} ScanJoinLines(lines: seq<string>)
    requires forall i :: 0 <= i < |lines| ==> Scannable(lines[i])
    ensures ScanLines(JoinLines(lines)) == lines
  {
    if lines != [] {
      var rest := lines[1..];
      assert lines == [lines[0]] + rest;
      JoinLinesCons(lines[0], rest);
      ScanLinesCons(lines[0], JoinLines(rest));
      ScanJoinLines(rest);
    }
  }
}
