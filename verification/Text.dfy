// String helpers of the Go standard library, as far as the services use them.
module Text {

  // White space as Go's unicode.IsSpace decides it.
  predicate IsSpace(c: char) {
    '\t' <= c <= '\r' || c == ' ' || c == '\U{85}' || c == '\U{A0}' || c == '\U{1680}'
    || '\U{2000}' <= c <= '\U{200A}' || c == '\U{2028}' || c == '\U{2029}'
    || c == '\U{202F}' || c == '\U{205F}' || c == '\U{3000}'
  }

  function TrimLeft(s: string): string {
    if s != [] && IsSpace(s[0]) then TrimLeft(s[1..]) else s
  }

  function TrimRight(s: string): string {
    if s != [] && IsSpace(s[|s| - 1]) then TrimRight(s[..|s| - 1]) else s
  }

  function Trim(s: string): string {
    TrimRight(TrimLeft(s))
  }

  // Nothing but white space: what TrimSpace reduces to the empty string.
  predicate Blank(s: string) {
    forall i :: 0 <= i < |s| ==> IsSpace(s[i])
  }

  // Upper-casing, restricted to the ASCII letters.
  function UpperChar(c: char): char {
    if 'a' <= c <= 'z' then c - 'a' + 'A' else c
  }

  function Upper(s: string): (r: string)
    ensures |r| == |s|
    ensures forall i :: 0 <= i < |s| ==> r[i] == UpperChar(s[i])
  {
    if s == [] then [] else [UpperChar(s[0])] + Upper(s[1..])
  }

  ghost predicate Trimmed(s: string) {
    s == [] || (!IsSpace(s[0]) && !IsSpace(s[|s| - 1]))
  }

  lemma {:induction false} TrimLeftStops(s: string)
    ensures TrimLeft(s) == [] || !IsSpace(TrimLeft(s)[0])
  {
    if s != [] && IsSpace(s[0]) { TrimLeftStops(s[1..]); }
  }

  lemma {:induction false} TrimRightStops(s: string)
    ensures TrimRight(s) <= s
    ensures TrimRight(s) == [] || !IsSpace(TrimRight(s)[|TrimRight(s)| - 1])
  {
    if s != [] && IsSpace(s[|s| - 1]) { TrimRightStops(s[..|s| - 1]); }
  }

  // Trimming reaches a text without outer white space, which it leaves alone.
  lemma TrimReaches(s: string)
    ensures Trimmed(Trim(s))
    ensures Trimmed(s) ==> Trim(s) == s
  {
    TrimLeftStops(s);
    TrimRightStops(TrimLeft(s));
  }

  lemma {:induction false} TrimLeftBlank(s: string)
    ensures TrimLeft(s) == [] <==> Blank(s)
  {
    if s != [] && IsSpace(s[0]) {
      TrimLeftBlank(s[1..]);
      assert forall i :: 1 <= i < |s| ==> s[i] == s[1..][i - 1];
      assert Blank(s[1..]) ==> Blank(s);
    }
  }

  // The test the services use for a missing text.
  lemma BlankMeansTrimmedAway(s: string)
    ensures Trim(s) == [] <==> Blank(s)
  {
    TrimLeftBlank(s);
    TrimLeftStops(s);
    TrimRightBlank(TrimLeft(s));
  }

  lemma {:induction false} TrimRightBlank(s: string)
    ensures TrimRight(s) == [] <==> Blank(s)
  {
    if s != [] && IsSpace(s[|s| - 1]) {
      TrimRightBlank(s[..|s| - 1]);
      assert forall i :: 0 <= i < |s| - 1 ==> s[i] == s[..|s| - 1][i];
      assert Blank(s[..|s| - 1]) ==> Blank(s);
    }
  }

  lemma {:induction false} TrimLeftCuts(s: string) returns (n: nat)
    ensures n <= |s| && Blank(s[..n]) && TrimLeft(s) == s[n..]
  {
    n := 0;
    if s != [] && IsSpace(s[0]) {
      var m := TrimLeftCuts(s[1..]);
      n := m + 1;
      assert s[n..] == s[1..][m..];
      forall i | 0 <= i < n ensures IsSpace(s[i]) {
        if i > 0 { assert s[i] == s[1..][..m][i - 1]; }
      }
    }
  }

  lemma {:induction false} TrimRightCuts(s: string) returns (n: nat)
    ensures n <= |s| && Blank(s[n..]) && TrimRight(s) == s[..n]
  {
    n := |s|;
    if s != [] && IsSpace(s[|s| - 1]) {
      var front := s[..|s| - 1];
      n := TrimRightCuts(front);
      assert s[..n] == front[..n];
      forall i | 0 <= i < |s[n..]| ensures IsSpace(s[n..][i]) {
        if n + i < |front| { assert s[n..][i] == front[n..][i]; }
      }
    }
  }

  // Trimming cuts white space off both ends and nothing else.
  lemma TrimCuts(s: string) returns (before: string, after: string)
    ensures s == before + Trim(s) + after && Blank(before) && Blank(after) && Trimmed(Trim(s))
  {
    var n := TrimLeftCuts(s);
    var m := TrimRightCuts(s[n..]);
    before, after := s[..n], s[n..][m..];
    assert s == s[..n] + s[n..];
    TrimReaches(s);
  }

  // Upper-casing changes the small ASCII letters and nothing else.
  lemma UpperLetters(s: string, i: nat)
    requires i < |s|
    ensures 'a' <= s[i] <= 'z' ==> 'A' <= Upper(s)[i] <= 'Z' && Upper(s)[i] as int - 'A' as int == s[i] as int - 'a' as int
    ensures !('a' <= s[i] <= 'z') ==> Upper(s)[i] == s[i]
  {
  }
}
