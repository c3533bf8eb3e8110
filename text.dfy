/** Small models of the Python string operations the bot relies on:
    `str.strip()`, `str.upper()`, `str.lower()`, `str.replace(pat, "")`,
    `sep.join(...)` and, as the inverse of join, `str.split(sep)`. */
module Text {

  /** `str.isspace()` for one character: every code point Python 3 treats as whitespace. */
  predicate IsSpace(ch: char) {
    || ch == ' ' || ch == '\t' || ch == '\n' || ch == '\r'
    || ch == '\U{000B}' || ch == '\U{000C}'
    || ('\U{001C}' <= ch <= '\U{001F}')
    || ch == '\U{0085}' || ch == '\U{00A0}' || ch == '\U{1680}'
    || ('\U{2000}' <= ch <= '\U{200A}')
    || ch == '\U{2028}' || ch == '\U{2029}' || ch == '\U{202F}' || ch == '\U{205F}' || ch == '\U{3000}'
  }

  /** Neither end of `s` is whitespace. */
  predicate NoEdgeSpace(s: string) {
    s != [] ==> !IsSpace(s[0]) && !IsSpace(s[|s| - 1])
  }

  /** Every character of `s` is whitespace. */
  predicate AllSpace(s: string) {
    forall k :: 0 <= k < |s| ==> IsSpace(s[k])
  }

  /** `str.lstrip()`. */
  function TrimLeft(s: string): string
    decreases |s|
  {
    if s != [] && IsSpace(s[0]) then TrimLeft(s[1..]) else s
  }

  /** `str.rstrip()`. */
  function TrimRight(s: string): string
    decreases |s|
  {
    if s != [] && IsSpace(s[|s| - 1]) then TrimRight(s[..|s| - 1]) else s
  }

  lemma AllSpaceAppend(a: string, b: string)
    requires AllSpace(a) && AllSpace(b)
    ensures AllSpace(a + b)
  {
    forall k | 0 <= k < |a + b| ensures IsSpace((a + b)[k]) {
      if k < |a| { assert (a + b)[k] == a[k]; } else { assert (a + b)[k] == b[k - |a|]; }
    }
  }

  /** lstrip drops exactly the leading whitespace: it returns the suffix of `s` after a
      run of whitespace, and that suffix does not start with whitespace. */
  lemma {:induction false} TrimLeftSpec(s: string)
    ensures |TrimLeft(s)| <= |s| && TrimLeft(s) == s[|s| - |TrimLeft(s)|..]
    ensures AllSpace(s[..|s| - |TrimLeft(s)|])
    ensures TrimLeft(s) != [] ==> !IsSpace(TrimLeft(s)[0])
    decreases |s|
  {
    if s != [] && IsSpace(s[0]) {
      var t := s[1..];
      var r := TrimLeft(t);
      assert TrimLeft(s) == r;
      TrimLeftSpec(t);
      assert t[|t| - |r|..] == s[|s| - |r|..];
      assert s[..|s| - |r|] == [s[0]] + t[..|t| - |r|];
      AllSpaceAppend([s[0]], t[..|t| - |r|]);
    }
  }

  /** rstrip drops exactly the trailing whitespace: it returns the prefix of `s` before a
      run of whitespace, and that prefix does not end with whitespace. */
  lemma {:induction false} TrimRightSpec(s: string)
    ensures |TrimRight(s)| <= |s| && TrimRight(s) == s[..|TrimRight(s)|]
    ensures AllSpace(s[|TrimRight(s)|..])
    ensures TrimRight(s) != [] ==> !IsSpace(TrimRight(s)[|TrimRight(s)| - 1])
    decreases |s|
  {
    if s != [] && IsSpace(s[|s| - 1]) {
      var t := s[..|s| - 1];
      var r := TrimRight(t);
      assert TrimRight(s) == r;
      TrimRightSpec(t);
      assert t[..|r|] == s[..|r|];
      assert s[|r|..] == t[|r|..] + [s[|s| - 1]];
      AllSpaceAppend(t[|r|..], [s[|s| - 1]]);
    }
  }

  /** `str.strip()` with no argument: no whitespace is left at either end. */
  function Strip(s: string): (r: string)
    ensures |r| <= |s|
    ensures NoEdgeSpace(r)
  {
    var l := TrimLeft(s);
    TrimLeftSpec(s);
    TrimRightSpec(l);
    var r := TrimRight(l);
    assert r != [] ==> r[0] == l[0];
    r
  }

  /** A string with no whitespace at its ends is left alone by Strip. */
  lemma StripFixed(s: string)
    requires NoEdgeSpace(s)
    ensures Strip(s) == s
  {
    assert TrimLeft(s) == s;
  }

  /** `str.upper()` on one character; only ASCII letters are mapped. */
  function UpperChar(ch: char): (r: char)
    ensures 'a' <= ch <= 'z' ==> r as int == ch as int - 32
    ensures !('a' <= ch <= 'z') ==> r == ch
    ensures IsSpace(r) <==> IsSpace(ch)
    ensures !('a' <= r <= 'z')
  {
    if 'a' <= ch <= 'z' then (ch as int - 32) as char else ch
  }

  /** `str.lower()` on one character; only ASCII letters are mapped. */
  function LowerChar(ch: char): (r: char)
    ensures 'A' <= ch <= 'Z' ==> r as int == ch as int + 32
    ensures !('A' <= ch <= 'Z') ==> r == ch
    ensures r == '/' <==> ch == '/'
    ensures !('A' <= r <= 'Z')
  {
    if 'A' <= ch <= 'Z' then (ch as int + 32) as char else ch
  }

  /** `str.upper()`: every lower-case ASCII letter is mapped, every other character kept. */
  function Upper(s: string): (r: string)
    ensures |r| == |s|
    ensures forall k :: 0 <= k < |s| ==> r[k] == UpperChar(s[k])
    ensures forall k :: 0 <= k < |s| ==> !('a' <= r[k] <= 'z') && (IsSpace(r[k]) <==> IsSpace(s[k]))
    ensures forall k :: 0 <= k < |s| && !('a' <= s[k] <= 'z') ==> r[k] == s[k]
  {
    seq(|s|, i requires 0 <= i < |s| => UpperChar(s[i]))
  }

  /** `str.lower()`: every upper-case ASCII letter is mapped, every other character kept. */
  function Lower(s: string): (r: string)
    ensures |r| == |s|
    ensures forall k :: 0 <= k < |s| ==> r[k] == LowerChar(s[k])
    ensures forall k :: 0 <= k < |s| ==> !('A' <= r[k] <= 'Z') && (r[k] == '/' <==> s[k] == '/')
    ensures forall k :: 0 <= k < |s| && !('A' <= s[k] <= 'Z') ==> r[k] == s[k]
  {
    seq(|s|, i requires 0 <= i < |s| => LowerChar(s[i]))
  }

  /** Upper-casing twice is upper-casing once. */
  lemma UpperIdempotent(s: string)
    ensures Upper(Upper(s)) == Upper(s)
  {
  }

  /** Lower-casing introduces no '/' and removes none. */
  lemma LowerKeepsSlash(s: string)
    ensures '/' in Lower(s) <==> '/' in s
  {
    if '/' in s {
      var i :| 0 <= i < |s| && s[i] == '/';
      assert Lower(s)[i] == '/';
    }
    if '/' in Lower(s) {
      var i :| 0 <= i < |Lower(s)| && Lower(s)[i] == '/';
      assert s[i] == '/';
    }
  }

  /** The text normalisation the symbol editor applies: `text.strip().upper()`. */
  function Normalize(s: string): (r: string)
    ensures NoEdgeSpace(r)
    ensures forall k :: 0 <= k < |r| ==> !('a' <= r[k] <= 'z')
  {
    var u := Strip(s);
    Upper(u)
  }

  /** A padded lower-case symbol as typed becomes the exchange's symbol. */
  lemma NormalizeExample()
    ensures Normalize(" btcusdt\n") == "BTCUSDT"
  {
    var s := " btcusdt\n";
    assert TrimLeft(s) == TrimLeft(s[1..]) == s[1..];
    assert s[1..] == "btcusdt\n";
    assert TrimRight("btcusdt\n") == TrimRight("btcusdt") == "btcusdt";
    assert Upper("btcusdt") == "BTCUSDT";
  }

  /** Normalising an already normalised name changes nothing, so typing the canonical
      form of a symbol has the same effect as any padded or lower-case spelling of it. */
  lemma NormalizeIdempotent(s: string)
    ensures Normalize(Normalize(s)) == Normalize(s)
  {
    var u := Upper(Strip(s));
    assert NoEdgeSpace(u) by {
      if u != [] {
        assert u[0] == UpperChar(Strip(s)[0]);
        assert u[|u| - 1] == UpperChar(Strip(s)[|u| - 1]);
      }
    }
    StripFixed(u);
    UpperIdempotent(Strip(s));
  }

  /** `pat` occurs in `s` at position `i`. */
  predicate OccursAt(s: string, pat: string, i: nat) {
    i + |pat| <= |s| && s[i..i + |pat|] == pat
  }

  predicate Occurs(s: string, pat: string) {
    exists i: nat | i <= |s| :: OccursAt(s, pat, i)
  }

  /** `s.replace(pat, "")`: every occurrence of the non-empty `pat`, found left to right
      without overlap, is deleted. */
  function RemoveAll(s: string, pat: string): (r: string)
    requires pat != []
    ensures |r| <= |s|
    ensures multiset(r) <= multiset(s)
    decreases |s|
  {
    if |s| < |pat| then s
    else if s[..|pat|] == pat then
      assert s == s[..|pat|] + s[|pat|..];
      RemoveAll(s[|pat|..], pat)
    else
      assert s == [s[0]] + s[1..];
      [s[0]] + RemoveAll(s[1..], pat)
  }

  /** A string in which `pat` does not occur is returned unchanged. */
  lemma {:induction false} RemoveAllAbsent(s: string, pat: string)
    requires pat != []
    requires !Occurs(s, pat)
    ensures RemoveAll(s, pat) == s
    decreases |s|
  {
    if |s| >= |pat| {
      assert !OccursAt(s, pat, 0);
      assert !Occurs(s[1..], pat) by {
        forall i: nat | OccursAt(s[1..], pat, i) ensures false {
          assert s[1..][i..i + |pat|] == s[i + 1..i + 1 + |pat|];
          assert OccursAt(s, pat, i + 1);
        }
      }
      RemoveAllAbsent(s[1..], pat);
    }
  }

  /** Python's left-to-right rule: the first occurrence of `pat` is deleted and the scan
      resumes right after it, so the text before it is kept as it is. Together with
      `RemoveAllAbsent` this determines `replace(pat, "")` completely. */
  lemma RemoveAllFirst(s: string, pat: string, i: nat)
    requires pat != []
    requires OccursAt(s, pat, i)
    requires forall j: nat :: j < i ==> !OccursAt(s, pat, j)
    ensures RemoveAll(s, pat) == s[..i] + RemoveAll(s[i + |pat|..], pat)
  {
    var a, x := s[..i], s[i..];
    assert s == a + x;
    forall j | 0 <= j < |a| ensures !OccursAt(a + x, pat, j) {
      assert !OccursAt(s, pat, j);
    }
    RemoveAllKeepsPrefix(a, x, pat);
    assert x[..|pat|] == pat;
    assert x[|pat|..] == s[i + |pat|..];
  }

  /** A prefix at none of whose positions `pat` occurs is kept as it is. */
  lemma {:induction false} RemoveAllKeepsPrefix(a: string, x: string, pat: string)
    requires pat != []
    requires forall j :: 0 <= j < |a| ==> !OccursAt(a + x, pat, j)
    ensures RemoveAll(a + x, pat) == a + RemoveAll(x, pat)
    decreases |a|
  {
    if a == [] {
      assert a + x == x;
    } else if |a + x| < |pat| {
      assert RemoveAll(x, pat) == x;
    } else {
      RemoveAllKeepStep(a, x, pat);
      RemoveAllKeepsPrefix(a[1..], x, pat);
      ConsAppend(a, RemoveAll(x, pat));
    }
  }

  lemma ConsAppend(a: string, r: string)
    requires a != []
    ensures [a[0]] + (a[1..] + r) == a + r
  {
    assert a == [a[0]] + a[1..];
  }

  /** One step of the scan over a prefix without occurrences: its first character is
      kept, and the rest of the prefix still has no occurrence. */
  lemma RemoveAllKeepStep(a: string, x: string, pat: string)
    requires pat != [] && a != [] && |pat| <= |a + x|
    requires forall j :: 0 <= j < |a| ==> !OccursAt(a + x, pat, j)
    ensures RemoveAll(a + x, pat) == [a[0]] + RemoveAll(a[1..] + x, pat)
    ensures forall j :: 0 <= j < |a[1..]| ==> !OccursAt(a[1..] + x, pat, j)
  {
    assert (a + x)[1..] == a[1..] + x;
    assert !OccursAt(a + x, pat, 0);
    forall j | 0 <= j < |a[1..]| ensures !OccursAt(a[1..] + x, pat, j) {
      assert !OccursAt(a + x, pat, j + 1);
      OccursShift(a + x, pat, j);
    }
  }

  /** An occurrence in the tail is an occurrence one place further on. */
  lemma OccursShift(s: string, pat: string, j: nat)
    requires s != []
    ensures OccursAt(s[1..], pat, j) <==> OccursAt(s, pat, j + 1)
  {
    if j + 1 + |pat| <= |s| {
      assert s[1..][j..j + |pat|] == s[j + 1..j + 1 + |pat|];
    }
  }

  /** The timeframe tag of a doubled prefix: every `tf_` is removed. */
  lemma RemoveAllExample()
    ensures RemoveAll("tf_tf_5m", "tf_") == "5m"
  {
    assert "tf_tf_5m"[..3] == "tf_";
    assert "tf_tf_5m"[3..] == "tf_5m";
    assert "tf_5m"[..3] == "tf_";
    assert "tf_5m"[3..] == "5m";
  }

  /** Removing a leading `pat` from `pat + x`, when `x` holds no further occurrence,
      yields exactly `x`. */
  lemma RemoveAllPrefix(pat: string, x: string)
    requires pat != []
    requires !Occurs(x, pat)
    ensures RemoveAll(pat + x, pat) == x
  {
    assert (pat + x)[..|pat|] == pat;
    assert (pat + x)[|pat|..] == x;
    RemoveAllAbsent(x, pat);
  }

  /** `s.startswith(prefix)`. */
  predicate StartsWith(s: string, prefix: string): (b: bool)
    ensures b <==> |prefix| <= |s| && forall k :: 0 <= k < |prefix| ==> s[k] == prefix[k]
    ensures b ==> s == prefix + s[|prefix|..]
  {
    |prefix| <= |s| && s[..|prefix|] == prefix
  }

  /** `sep.join(names)`. */
  function Join(names: seq<string>, sep: char): (r: string)
    ensures names != [] ==> StartsWith(r, names[0])
    ensures |names| > 1 ==> |names[0]| < |r| && r[|names[0]|] == sep
    decreases |names|
  {
    if |names| == 0 then ""
    else if |names| == 1 then names[0]
    else names[0] + [sep] + Join(names[1..], sep)
  }

  /** The index of the first `c` in `s`. */
  function IndexOf(s: string, c: char): (r: nat)
    requires c in s
    ensures r < |s| && s[r] == c && c !in s[..r]
  {
    if s[0] == c then 0
    else
      assert c in s[1..] by { var i :| 0 <= i < |s| && s[i] == c; assert s[1..][i - 1] == c; }
      var r := 1 + IndexOf(s[1..], c);
      assert s[..r] == [s[0]] + s[1..][..r - 1];
      r
  }

  /** `s.split(sep)`: always at least one piece; the pieces contain no `sep`. */
  function Split(s: string, sep: char): (r: seq<string>)
    ensures |r| >= 1
    ensures forall i :: 0 <= i < |r| ==> sep !in r[i]
    decreases |s|
  {
    if sep !in s then [s]
    else
      var i := IndexOf(s, sep);
      [s[..i]] + Split(s[i + 1..], sep)
  }

  /** Splitting `a + [sep] + rest`, where `a` holds no `sep`, cuts off exactly `a`. */
  lemma SplitFirst(a: string, sep: char, rest: string)
    requires sep !in a
    ensures Split(a + [sep] + rest, sep) == [a] + Split(rest, sep)
  {
    var s := a + [sep] + rest;
    assert s[|a|] == sep;
    var i := IndexOf(s, sep);
    assert s[..|a|] == a;
    assert i == |a|;
    assert s[i + 1..] == rest;
  }

  /** Splitting a join gives back the joined names, provided none of them contains the
      separator. */
  lemma {:induction false} SplitJoin(names: seq<string>, sep: char)
    requires names != []
    requires forall i :: 0 <= i < |names| ==> sep !in names[i]
    ensures Split(Join(names, sep), sep) == names
    decreases |names|
  {
    if |names| > 1 {
      var tail := names[1..];
      assert names == [names[0]] + tail;
      assert forall i :: 0 <= i < |tail| ==> tail[i] == names[i + 1];
      SplitJoin(tail, sep);
      assert Join(names, sep) == names[0] + [sep] + Join(tail, sep);
      SplitFirst(names[0], sep, Join(tail, sep));
    }
  }
}
