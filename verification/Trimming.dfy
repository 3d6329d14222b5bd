/** strings.TrimSpace: what stays of a title or a name. */
module Trimming {

  /** The characters of Unicode's White_Space. */
  const SPACES: string :=
    "\t\n\U{B}\U{C}\r \U{85}\U{A0}\U{1680}\U{2000}\U{2001}\U{2002}\U{2003}\U{2004}\U{2005}\U{2006}\U{2007}"
    + "\U{2008}\U{2009}\U{200A}\U{2028}\U{2029}\U{202F}\U{205F}\U{3000}"

  predicate IsSpace(c: char) {
    var n := c as int;
    9 <= n <= 13 || n in {0x20, 0x85, 0xA0, 0x1680, 0x2028, 0x2029, 0x202F, 0x205F, 0x3000} || 0x2000 <= n <= 0x200A
  }

  lemma SpacesAre(c: char)
    ensures IsSpace(c) <==> c in SPACES
  {
    if IsSpace(c) {
      SpaceIsListed(c);
    }
  }

  lemma SpaceIsListed(c: char)
    requires IsSpace(c)
    ensures exists k :: 0 <= k < |SPACES| && SPACES[k] == c
  {
    var n := c as int;
    var k := if n <= 13 then n - 9 else if n == 0x20 then 5 else if n == 0x85 then 6 else if n == 0xA0 then 7
             else if n == 0x1680 then 8 else if n <= 0x200A then n - 0x2000 + 9 else if n <= 0x2029 then n - 0x2028 + 20
             else if n == 0x202F then 22 else if n == 0x205F then 23 else 24;
    assert SPACES[k] == c;
  }

  predicate AllSpaces(s: string) {
    forall i :: 0 <= i < |s| ==> IsSpace(s[i])
  }

  function TrimLeft(s: string): string {
    if s != "" && IsSpace(s[0]) then TrimLeft(s[1..]) else s
  }

  function TrimRight(s: string): string {
    if s != "" && IsSpace(s[|s| - 1]) then TrimRight(s[..|s| - 1]) else s
  }

  function TrimSpace(s: string): string {
    TrimRight(TrimLeft(s))
  }

  lemma {:induction false} LeftCut(s: string) returns (p: string)
    ensures s == p + TrimLeft(s) && AllSpaces(p)
    ensures TrimLeft(s) != "" ==> !IsSpace(TrimLeft(s)[0])
  {
    if s != "" && IsSpace(s[0]) {
      var rest := LeftCut(s[1..]);
      p := [s[0]] + rest;
      assert s == [s[0]] + s[1..];
    } else {
      p := "";
    }
  }

  lemma {:induction false} RightCut(s: string) returns (q: string)
    ensures s == TrimRight(s) + q && AllSpaces(q)
    ensures TrimRight(s) != "" ==> !IsSpace(TrimRight(s)[|TrimRight(s)| - 1])
  {
    if s != "" && IsSpace(s[|s| - 1]) {
      var rest := RightCut(s[..|s| - 1]);
      q := rest + [s[|s| - 1]];
      assert s == s[..|s| - 1] + [s[|s| - 1]];
    } else {
      q := "";
    }
  }

  /** Only spaces go, from both ends, and all of them do. */
  lemma TrimMeaning(s: string) returns (p: string, q: string)
    ensures s == p + TrimSpace(s) + q && AllSpaces(p) && AllSpaces(q)
    ensures var t := TrimSpace(s); t != "" ==> !IsSpace(t[0]) && !IsSpace(t[|t| - 1])
  {
    p := LeftCut(s);
    q := RightCut(TrimLeft(s));
    if TrimSpace(s) != "" {
      assert TrimLeft(s)[0] == TrimSpace(s)[0];
    }
  }

  /** Nothing is left exactly of a text without any other character. */
  lemma BlankMeaning(s: string)
    ensures TrimSpace(s) == "" <==> forall k :: 0 <= k < |s| ==> s[k] in SPACES
  {
    var p, q := TrimMeaning(s);
    var t := TrimSpace(s);
    forall k | 0 <= k < |s| ensures s[k] in SPACES <==> IsSpace(s[k]) {
      SpacesAre(s[k]);
    }
    if t == "" {
      assert s == p + q;
    } else {
      assert s[|p|] == t[0];
    }
  }
}
