/** The string operations of the Python sources, on characters. */
module PythonText {
  /** `str.isspace` per character, as used by `str.strip`. */
  predicate IsSpace(c: char) {
    var n := c as int;
    9 <= n <= 13 || 28 <= n <= 32 || n == 0x85 || n == 0xA0 || n == 0x1680 || 0x2000 <= n <= 0x200A ||
    n == 0x2028 || n == 0x2029 || n == 0x202F || n == 0x205F || n == 0x3000
  }

  function StripLeft(s: string): string {
    if s != "" && IsSpace(s[0]) then StripLeft(s[1..]) else s
  }

  function StripRight(s: string): string {
    if s != "" && IsSpace(s[|s| - 1]) then StripRight(s[..|s| - 1]) else s
  }

  lemma {:induction false} StripLeftSuffix(s: string)
    ensures var r := StripLeft(s); |r| <= |s| && r == s[|s| - |r|..] && (r != "" ==> !IsSpace(r[0]))
  {
    if s != "" && IsSpace(s[0]) {
      StripLeftSuffix(s[1..]);
    }
  }

  lemma {:induction false} StripRightPrefix(s: string)
    ensures var r := StripRight(s); |r| <= |s| && r == s[..|r|] && (r != "" ==> !IsSpace(r[|r| - 1]))
  {
    if s != "" && IsSpace(s[|s| - 1]) {
      StripRightPrefix(s[..|s| - 1]);
    }
  }

  function Strip(s: string): string {
    StripRight(StripLeft(s))
  }

  lemma StripLeading(c: char, s: string)
    requires IsSpace(c)
    ensures Strip([c] + s) == Strip(s)
  {
  }

  predicate Blank(s: string) {
    forall i :: 0 <= i < |s| ==> IsSpace(s[i])
  }

  lemma {:induction false} StripLeftBlank(s: string)
    ensures StripLeft(s) == "" <==> Blank(s)
  {
    if s != "" && IsSpace(s[0]) {
      StripLeftBlank(s[1..]);
      assert Blank(s) <==> Blank(s[1..]) by {
        assert forall i :: 1 <= i < |s| ==> s[i] == s[1..][i - 1];
      }
    }
  }

  lemma {:induction false} StripBlank(s: string)
    ensures Strip(s) == "" <==> Blank(s)
  {
    StripLeftBlank(s);
    StripLeftSuffix(s);
    var r := StripLeft(s);
    if r != "" && StripRight(r) == "" {
      StripRightBlank(r);
    }
  }

  lemma {:induction false} StripRightBlank(s: string)
    requires StripRight(s) == ""
    ensures Blank(s)
  {
    if s != "" {
      StripRightBlank(s[..|s| - 1]);
    }
  }

  /** Text that begins and ends with a non-space is left alone. */
  predicate Trimmed(s: string) {
    s == "" || (!IsSpace(s[0]) && !IsSpace(s[|s| - 1]))
  }

  lemma TrimmedIsFixed(s: string)
    ensures Strip(s) == s <==> Trimmed(s)
  {
    StripLeftSuffix(s);
    StripRightPrefix(StripLeft(s));
  }

  /** `str.lower` for every character whose lower case is ASCII; no other result can equal an ASCII string. */
  function LowerChar(c: char): char {
    if 'A' <= c <= 'Z' then (c as int + 32) as char
    else if c as int == 0x212A then 'k'
    else c
  }

  function Lower(s: string): string {
    seq(|s|, i requires 0 <= i < |s| => LowerChar(s[i]))
  }

  /** The white space of `str.strip`, one by one. */
  lemma SpaceExact(c: char)
    ensures IsSpace(c) <==>
            c as int in {0x9, 0xA, 0xB, 0xC, 0xD, 0x1C, 0x1D, 0x1E, 0x1F, 0x20, 0x85, 0xA0, 0x1680, 0x2000, 0x2001,
                         0x2002, 0x2003, 0x2004, 0x2005, 0x2006, 0x2007, 0x2008, 0x2009, 0x200A, 0x2028, 0x2029, 0x202F,
                         0x205F, 0x3000}
  {
  }

  /** Stripping takes white space off both ends, and nothing else. */
  lemma {:induction false} StripExact(s: string)
    ensures Trimmed(Strip(s))
    ensures exists a, b :: s == a + Strip(s) + b && Blank(a) && Blank(b)
  {
    var l := StripLeft(s);
    var r := StripRight(l);
    StripLeftSuffix(s);
    StripRightPrefix(l);
    StripLeftTakes(s);
    StripRightTakes(l);
    assert r != "" ==> r[0] == l[0];
    var a, b := s[..|s| - |l|], l[|r|..];
    assert s == a + r + b;
  }

  lemma {:induction false} StripLeftTakes(s: string)
    ensures |StripLeft(s)| <= |s| && Blank(s[..|s| - |StripLeft(s)|])
  {
    StripLeftSuffix(s);
    if s != "" && IsSpace(s[0]) {
      StripLeftTakes(s[1..]);
      var n := |s| - |StripLeft(s)|;
      forall i | 0 <= i < n ensures IsSpace(s[..n][i]) {
        assert i > 0 ==> s[i] == s[1..][..n - 1][i - 1];
      }
    }
  }

  lemma {:induction false} StripRightTakes(s: string)
    ensures |StripRight(s)| <= |s| && Blank(s[|StripRight(s)|..])
  {
    StripRightPrefix(s);
    if s != "" && IsSpace(s[|s| - 1]) {
      var front := s[..|s| - 1];
      StripRightTakes(front);
      var n := |StripRight(s)|;
      forall i | 0 <= i < |s| - n ensures IsSpace(s[n..][i]) {
        assert n + i < |front| ==> s[n..][i] == front[n..][i];
      }
    }
  }

  /** Lower case is the same text with A to Z, and the Kelvin sign, replaced. */
  lemma LowerExact(s: string)
    ensures |Lower(s)| == |s|
    ensures forall i :: 0 <= i < |s| ==>
              Lower(s)[i] as int == if 65 <= s[i] as int <= 90 then s[i] as int + 32
                                    else if s[i] as int == 0x212A then 107 else s[i] as int
  {
  }
}
