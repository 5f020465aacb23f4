/** The string operations the address formats are built from, on ASCII text. */
module Text {

  function LowerChar(c: char): char { if 'A' <= c <= 'Z' then 'a' + (c - 'A') else c }

  function UpperChar(c: char): char { if 'a' <= c <= 'z' then 'A' + (c - 'a') else c }

  function Lower(s: string): (r: string)
    ensures |r| == |s|
  {
    seq(|s|, i requires 0 <= i < |s| => LowerChar(s[i]))
  }

  function Upper(s: string): (r: string)
    ensures |r| == |s|
  {
    seq(|s|, i requires 0 <= i < |s| => UpperChar(s[i]))
  }

  predicate IsSpace(c: char) { c == ' ' || '\U{0009}' <= c <= '\U{000D}' }

  function TrimLeft(s: string): string { if s != "" && IsSpace(s[0]) then TrimLeft(s[1..]) else s }

  function TrimRight(s: string): string {
    if s != "" && IsSpace(s[|s| - 1]) then TrimRight(s[..|s| - 1]) else s
  }

  function Trim(s: string): string { TrimRight(TrimLeft(s)) }

  predicate HasPrefix(s: string, p: string) { |p| <= |s| && s[..|p|] == p }

  predicate HasSuffix(s: string, x: string) { |x| <= |s| && s[|s| - |x|..] == x }

  function TrimSuffix(s: string, x: string): string { if HasSuffix(s, x) then s[..|s| - |x|] else s }

  /** No capital letter and no white space. */
  predicate Plain(c: char) { !('A' <= c <= 'Z') && !IsSpace(c) }

  ghost predicate IsPlain(s: string) { forall c :: c in s ==> Plain(c) }

  lemma PlainStays(s: string)
    requires IsPlain(s)
    ensures Lower(s) == s && Trim(s) == s
  {
    forall i | 0 <= i < |s| ensures Lower(s)[i] == s[i] {
      assert s[i] in s;
    }
    if s != "" {
      assert s[0] in s && s[|s| - 1] in s;
    }
  }

  ghost predicate AllSpace(s: string) { forall c :: c in s ==> IsSpace(c) }

  lemma {:induction false} TrimLeftStrips(a: string, s: string)
    requires AllSpace(a) && (s != "" ==> !IsSpace(s[0]))
    ensures TrimLeft(a + s) == s
  {
    if a == "" {
      assert a + s == s;
    } else {
      assert a[0] in a && (a + s)[1..] == a[1..] + s;
      TrimLeftStrips(a[1..], s);
    }
  }

  lemma {:induction false} TrimRightStrips(s: string, b: string)
    requires AllSpace(b) && (s != "" ==> !IsSpace(s[|s| - 1]))
    ensures TrimRight(s + b) == s
    decreases |b|
  {
    if b == "" {
      assert s + b == s;
    } else {
      assert b[|b| - 1] in b && (s + b)[..|s + b| - 1] == s + b[..|b| - 1];
      TrimRightStrips(s, b[..|b| - 1]);
    }
  }

  /** White space around a text goes, and nothing else. */
  lemma TrimStrips(a: string, s: string, b: string)
    requires AllSpace(a) && AllSpace(b) && s != "" && !IsSpace(s[0]) && !IsSpace(s[|s| - 1])
    ensures Trim(a + s + b) == s && Trim(a) == ""
  {
    assert a + s + b == a + (s + b);
    TrimLeftStrips(a, s + b);
    TrimRightStrips(s, b);
    assert a + "" == a;
    TrimLeftStrips(a, "");
  }

  // ---------------------------------------------------------------- labels

  /** `c` put in front of the first part. */
  function Glue(c: char, parts: seq<string>): (r: seq<string>)
    requires |parts| >= 1
    ensures |r| == |parts|
  {
    [[c] + parts[0]] + parts[1..]
  }

  /** The parts of `s` between the separators; there is always at least one. */
  function Split(s: string, sep: char): (parts: seq<string>)
    ensures |parts| >= 1
  {
    if s == "" then [""]
    else
      var rest := Split(s[1..], sep);
      if s[0] == sep then [""] + rest else Glue(s[0], rest)
  }

  function Join(parts: seq<string>, sep: char): string {
    if parts == [] then "" else if |parts| == 1 then parts[0] else parts[0] + [sep] + Join(parts[1..], sep)
  }

  lemma {:induction false} SplitOne(s: string, sep: char)
    requires sep !in s
    ensures Split(s, sep) == [s]
  {
    if s != "" {
      assert s[0] in s;
      forall c | c in s[1..] ensures c in s {}
      SplitOne(s[1..], sep);
      assert s == [s[0]] + s[1..];
    }
  }

  lemma GlueAppend(c: char, p: seq<string>, q: seq<string>)
    requires |p| >= 1
    ensures Glue(c, p + q) == Glue(c, p) + q
  {
    assert (p + q)[1..] == p[1..] + q;
  }

  /** Splitting at a separator splits both sides. */
  lemma {:induction false} SplitAppend(a: string, b: string, sep: char)
    ensures Split(a + [sep] + b, sep) == Split(a, sep) + Split(b, sep)
  {
    var s := a + [sep] + b;
    if a == "" {
      assert s == [sep] + b && s[1..] == b;
    } else {
      assert s[1..] == a[1..] + [sep] + b;
      SplitAppend(a[1..], b, sep);
      assert s[0] == a[0];
      if a[0] != sep {
        GlueAppend(a[0], Split(a[1..], sep), Split(b, sep));
      }
    }
  }

  /** Joining undoes splitting, empty parts included. */
  lemma {:induction false} JoinSplit(s: string, sep: char)
    ensures Join(Split(s, sep), sep) == s
  {
    if s != "" {
      JoinSplit(s[1..], sep);
      var rest := Split(s[1..], sep);
      assert s == [s[0]] + s[1..];
      if s[0] == sep {
        assert ([""] + rest)[1..] == rest;
        assert Split(s, sep) == [""] + rest;
        assert Join(Split(s, sep), sep) == "" + [sep] + Join(rest, sep);
      } else {
        var first := [s[0]] + rest[0];
        assert Glue(s[0], rest)[1..] == rest[1..];
        if |rest| > 1 {
          assert first + [sep] + Join(rest[1..], sep) == [s[0]] + (rest[0] + [sep] + Join(rest[1..], sep));
        }
      }
    }
  }
}
