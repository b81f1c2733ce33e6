/** The two polars string expressions the importer uses:
    `str().split(lit("-"))` and `str().strip_chars(lit(" "))`. */
module StrOps {

  const Separator: char := '-'

  /** Splitting on '-', as Rust's `str::split` does: n separators give n + 1
      parts, and empty parts are kept (so "" splits into [""]). */
  function Split(s: string): (parts: seq<string>)
    ensures |parts| >= 1
  {
    if s == [] then [""]
    else
      var init := Split(s[..|s| - 1]);
      var c := s[|s| - 1];
      if c == Separator then init + [""]
      else init[..|init| - 1] + [init[|init| - 1] + [c]]
  }

  /** The parts glued back together with '-' between neighbours. */
  function Join(parts: seq<string>): string
    requires |parts| >= 1
  {
    if |parts| == 1 then parts[0]
    else Join(parts[..|parts| - 1]) + [Separator] + parts[|parts| - 1]
  }

  lemma {:induction false} JoinExtendLast(parts: seq<string>, c: char)
    requires |parts| >= 1
    ensures Join(parts[..|parts| - 1] + [parts[|parts| - 1] + [c]]) == Join(parts) + [c]
  {
    var q := parts[..|parts| - 1] + [parts[|parts| - 1] + [c]];
    if |parts| > 1 {
      assert q[..|q| - 1] == parts[..|parts| - 1];
    }
  }

  /** Joining the parts gives back the split text. */
  lemma {:induction false} JoinSplit(s: string)
    ensures Join(Split(s)) == s
  {
    if s != [] {
      var s' := s[..|s| - 1];
      var init := Split(s');
      JoinSplit(s');
      if s[|s| - 1] == Separator {
        assert (init + [""])[..|init|] == init;
        assert s == s' + [Separator];
      } else {
        JoinExtendLast(init, s[|s| - 1]);
        assert s == s' + [s[|s| - 1]];
      }
    }
  }

  /** No part contains the separator. */
  lemma {:induction false} PartsHaveNoSeparator(s: string)
    ensures forall i :: 0 <= i < |Split(s)| ==> Separator !in Split(s)[i]
  {
    if s != [] {
      var s' := s[..|s| - 1];
      PartsHaveNoSeparator(s');
      var init := Split(s');
      if s[|s| - 1] != Separator {
        var p := init[|init| - 1] + [s[|s| - 1]];
        assert Separator !in init[|init| - 1];
        assert Separator !in p;
      }
    }
  }

  /** There are at least two parts exactly when the text contains a separator. */
  lemma {:induction false} SplitCount(s: string)
    ensures |Split(s)| >= 2 <==> Separator in s
  {
    if s != [] {
      var s' := s[..|s| - 1];
      SplitCount(s');
      assert s == s' + [s[|s| - 1]];
    }
  }

  /** The parts with c appended to the last one. */
  function ExtendLast(parts: seq<string>, c: char): (r: seq<string>)
    requires |parts| >= 1
    ensures |r| == |parts| && r[|r| - 1] == parts[|parts| - 1] + [c]
    ensures r[..|r| - 1] == parts[..|parts| - 1]
  {
    parts[..|parts| - 1] + [parts[|parts| - 1] + [c]]
  }

  /** One more separator starts a new, empty part ... */
  lemma SplitSnocSeparator(s: string)
    ensures Split(s + [Separator]) == Split(s) + [""]
  {
    assert (s + [Separator])[..|s|] == s;
  }

  /** ... and any other character extends the last part. */
  lemma SplitSnocChar(s: string, c: char)
    requires c != Separator
    ensures Split(s + [c]) == ExtendLast(Split(s), c)
  {
    assert (s + [c])[..|s|] == s;
  }

  /** Extending the last part of x + y extends the last part of y. */
  lemma ExtendLastOfConcat(x: seq<string>, y: seq<string>, c: char)
    requires |y| >= 1
    ensures ExtendLast(x + y, c) == x + ExtendLast(y, c)
  {
    var w := x + y;
    assert w[..|w| - 1] == x + y[..|y| - 1];
  }

  /** Appending a character keeps a split of a + "-" + b equal to the two
      halves' splits: a separator adds an empty part to both ... */
  lemma SplitAroundNewPart(a: string, b: string)
    requires Split(a + [Separator] + b) == Split(a) + Split(b)
    ensures Split(a + [Separator] + (b + [Separator])) == Split(a) + Split(b + [Separator])
  {
    var w := a + [Separator] + b;
    SnocRegroup(a, b, Separator);
    SplitSnocSeparator(w);
    SplitSnocSeparator(b);
    NewPartOfConcat(Split(a), Split(b));
  }

  /** Appending after b is appending after a + "-" + b. */
  lemma SnocRegroup(a: string, b: string, c: char)
    ensures a + [Separator] + (b + [c]) == (a + [Separator] + b) + [c]
  {
  }

  /** A new last part of x + y is a new last part of y. */
  lemma NewPartOfConcat(x: seq<string>, y: seq<string>)
    ensures (x + y) + [""] == x + (y + [""])
  {
  }

  /** ... and any other character extends the last part of both. */
  lemma SplitAroundExtend(a: string, b: string, c: char)
    requires c != Separator
    requires Split(a + [Separator] + b) == Split(a) + Split(b)
    ensures Split(a + [Separator] + (b + [c])) == Split(a) + Split(b + [c])
  {
    var w := a + [Separator] + b;
    SnocRegroup(a, b, c);
    SplitSnocChar(w, c);
    SplitSnocChar(b, c);
    ExtendLastOfConcat(Split(a), Split(b), c);
  }

  /** Text on either side of a separator is split independently. */
  lemma {:induction false} SplitAroundSeparator(a: string, b: string)
    ensures Split(a + [Separator] + b) == Split(a) + Split(b)
    decreases |b|
  {
    if b == [] {
      assert a + [Separator] + b == a + [Separator];
      SplitSnocSeparator(a);
      assert Split(b) == [""];
    } else {
      var b' := b[..|b| - 1];
      assert b == b' + [b[|b| - 1]];
      SplitAroundSeparator(a, b');
      if b[|b| - 1] == Separator {
        SplitAroundNewPart(a, b');
      } else {
        SplitAroundExtend(a, b', b[|b| - 1]);
      }
    }
  }

  /** A text without separators splits into itself alone. */
  lemma {:induction false} SplitPlain(s: string)
    requires Separator !in s
    ensures Split(s) == [s]
  {
    SplitCount(s);
    JoinSplit(s);
  }

  /** Splitting a join of separator-free parts gives back the parts. */
  lemma {:induction false} SplitJoin(parts: seq<string>)
    requires |parts| >= 1
    requires forall i :: 0 <= i < |parts| ==> Separator !in parts[i]
    ensures Split(Join(parts)) == parts
  {
    if |parts| == 1 {
      SplitPlain(parts[0]);
    } else {
      var init := parts[..|parts| - 1];
      SplitJoin(init);
      SplitAroundSeparator(Join(init), parts[|parts| - 1]);
      SplitPlain(parts[|parts| - 1]);
    }
  }

  /** Leading spaces removed. */
  function TrimStart(s: string): (r: string)
    ensures |r| <= |s| && r == s[|s| - |r|..]
    ensures forall k :: 0 <= k < |s| - |r| ==> s[k] == ' '
    ensures r == [] || r[0] != ' '
  {
    if s != [] && s[0] == ' ' then TrimStart(s[1..]) else s
  }

  /** Trailing spaces removed. */
  function TrimEnd(s: string): (r: string)
    ensures |r| <= |s| && r == s[..|r|]
    ensures forall k :: |r| <= k < |s| ==> s[k] == ' '
    ensures r == [] || r[|r| - 1] != ' '
  {
    if s != [] && s[|s| - 1] == ' ' then TrimEnd(s[..|s| - 1]) else s
  }

  /** `strip_chars(lit(" "))`: leading and trailing spaces removed. */
  function Strip(s: string): (r: string)
    ensures r == [] || (r[0] != ' ' && r[|r| - 1] != ' ')
  {
    TrimEnd(TrimStart(s))
  }

  /** What `Strip` keeps is the slice of s that starts after its leading
      spaces; only spaces of s lie outside that slice. */
  lemma StripIsSlice(s: string)
    ensures var r, i := Strip(s), |s| - |TrimStart(s)|;
      && i + |r| <= |s|
      && r == s[i..i + |r|]
      && (forall k :: 0 <= k < i ==> s[k] == ' ')
      && (forall k :: i + |r| <= k < |s| ==> s[k] == ' ')
  {
    var t := TrimStart(s);
    var r := TrimEnd(t);
    var i := |s| - |t|;
    assert t == s[i..];
    assert r == t[..|r|];
    forall k | i + |r| <= k < |s|
      ensures s[k] == ' '
    {
      assert s[k] == t[k - i];
    }
  }

  /** Stripping a stripped text changes nothing. */
  lemma StripIdempotent(s: string)
    ensures Strip(Strip(s)) == Strip(s)
  {
    var r := Strip(s);
    assert TrimStart(r) == r;
    assert TrimEnd(r) == r;
  }
}
