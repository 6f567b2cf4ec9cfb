/** Question records as they arrive from the question bank, and the value-level
    rules both quiz variants share: Python's `str.strip()`, Python's `set()` of an
    answer value, and the percentage score. */
module Questions {

  datatype Option<+T> = None | Some(value: T)

  /** An answer as the JSON bank or an input widget delivers it:
      a string, or a list of strings. */
  datatype Value = Str(s: string) | List(items: seq<string>)

  /** One record of the question bank. A missing `options` key reads as the
      empty list and a missing `input_field` key as false, which is how both
      handlers test them. The optional `code` snippet is only shown, but it is
      part of the record, so two records that differ only there are different
      questions. */
  datatype Question = Question(
    text: string,
    options: seq<string>,
    answer: Value,
    inputField: bool,
    keywords: seq<string>,
    explanation: string,
    code: Option<string>)

  // ---------------------------------------------------------------------------
  // Python's str.strip()
  // ---------------------------------------------------------------------------

  /** Python's `str.isspace()` for one character. */
  predicate IsSpace(c: char)
    ensures c == ' ' || c == '\t' || c == '\n' || c == '\r' ==> IsSpace(c)
    ensures ('a' <= c <= 'z') || ('A' <= c <= 'Z') || ('0' <= c <= '9') ==> !IsSpace(c)
  {
    var n := c as int;
    (9 <= n <= 13) || (28 <= n <= 32) || n == 0x85 || n == 0xA0 || n == 0x1680
    || (0x2000 <= n <= 0x200A) || n == 0x2028 || n == 0x2029 || n == 0x202F
    || n == 0x205F || n == 0x3000
  }

  predicate AllSpace(s: string)
  {
    forall k :: 0 <= k < |s| ==> IsSpace(s[k])
  }

  /** No whitespace at either end: the shape of whatever `strip()` returns. */
  predicate Trimmed(s: string)
  {
    s == [] || (!IsSpace(s[0]) && !IsSpace(s[|s| - 1]))
  }

  /** Position of the first non-whitespace character, or |s| if there is none. */
  function ContentStart(s: string): (i: nat)
    ensures i <= |s|
    ensures forall k :: 0 <= k < i ==> IsSpace(s[k])
    ensures i < |s| ==> !IsSpace(s[i])
  {
    if |s| == 0 || !IsSpace(s[0]) then 0 else 1 + ContentStart(s[1..])
  }

  /** Position just after the last non-whitespace character, or 0 if there is none. */
  function ContentEnd(s: string): (j: nat)
    ensures j <= |s|
    ensures forall k :: j <= k < |s| ==> IsSpace(s[k])
    ensures 0 < j ==> !IsSpace(s[j - 1])
  {
    if |s| == 0 || !IsSpace(s[|s| - 1]) then |s| else ContentEnd(s[..|s| - 1])
  }

  /** Python's `s.strip()`: the string without its leading and trailing whitespace. */
  function Strip(s: string): (r: string)
    ensures Trimmed(r)
    ensures exists i, j :: 0 <= i <= j <= |s| && r == s[i..j] && AllSpace(s[..i]) && AllSpace(s[j..])
  {
    var i := ContentStart(s);
    if i == |s| then
      assert s[|s|..|s|] == [] && s[..|s|] == s;
      []
    else
      var j := ContentEnd(s);
      assert i < j;
      assert AllSpace(s[..i]) by {
        forall k | 0 <= k < i ensures IsSpace(s[..i][k]) { assert s[..i][k] == s[k]; }
      }
      assert AllSpace(s[j..]) by {
        forall k | 0 <= k < |s| - j ensures IsSpace(s[j..][k]) { assert s[j..][k] == s[j + k]; }
      }
      s[i..j]
  }

  /** Stripping is determined by shape: a trimmed core between two runs of
      whitespace is exactly what `strip()` returns. */
  lemma StripUnique(s: string, a: string, r: string, b: string)
    requires s == a + r + b && AllSpace(a) && AllSpace(b) && Trimmed(r)
    ensures Strip(s) == r
  {
    var i := ContentStart(s);
    forall k | 0 <= k < |a| ensures s[k] == a[k] { }
    forall k | 0 <= k < |b| ensures s[|a| + |r| + k] == b[k] { }
    if r == [] {
      assert i == |s|;
    } else {
      assert s[|a|] == r[0];
      assert s[|a| + |r| - 1] == r[|r| - 1];
      assert i == |a|;
      var j := ContentEnd(s);
      assert j == |a| + |r|;
      assert s[i..j] == r;
    }
  }

  /** A string without surrounding whitespace is its own stripped form. */
  lemma StripTrimmed(s: string)
    requires Trimmed(s)
    ensures Strip(s) == s
  {
    assert s == [] + s + [];
    StripUnique(s, [], s, []);
  }

  /** Stripping twice is stripping once. */
  lemma StripIdempotent(s: string)
    ensures Strip(Strip(s)) == Strip(s)
  {
    StripTrimmed(Strip(s));
  }

  lemma AllSpaceConcat(a: string, b: string)
    requires AllSpace(a) && AllSpace(b)
    ensures AllSpace(a + b)
  {
    forall k | 0 <= k < |a + b| ensures IsSpace((a + b)[k]) {
      if k >= |a| { assert (a + b)[k] == b[k - |a|]; }
    }
  }

  lemma Regroup(a: string, s: string, b: string, i: nat, j: nat)
    requires i <= j <= |s|
    ensures a + s + b == (a + s[..i]) + s[i..j] + (s[j..] + b)
  {
    assert s == s[..i] + s[i..j] + s[j..];
  }

  /** Surrounding whitespace never changes what `strip()` returns. */
  lemma StripIgnoresPadding(s: string, a: string, b: string)
    requires AllSpace(a) && AllSpace(b)
    ensures Strip(a + s + b) == Strip(s)
  {
    var r := Strip(s);
    var i, j :| 0 <= i <= j <= |s| && r == s[i..j] && AllSpace(s[..i]) && AllSpace(s[j..]);
    AllSpaceConcat(a, s[..i]);
    AllSpaceConcat(s[j..], b);
    Regroup(a, s, b, i, j);
    StripUnique(a + s + b, a + s[..i], r, s[j..] + b);
  }

  /** Typed text is stripped before it is graded; a widget selection is taken as is. */
  function Received(q: Question, raw: Value): (v: Value)
    ensures !(q.inputField && raw.Str?) ==> v == raw
    ensures q.inputField && raw.Str? ==> v.Str? && Trimmed(v.s) && Strip(v.s) == v.s
  {
    if q.inputField && raw.Str? then
      StripIdempotent(raw.s);
      Str(Strip(raw.s))
    else raw
  }

  // ---------------------------------------------------------------------------
  // Python's set() of an answer value
  // ---------------------------------------------------------------------------

  /** Python's `set(v)`: the items of a list, or the one-character strings of a string. */
  function AsSet(v: Value): (r: set<string>)
    ensures v.List? ==> forall x :: x in r <==> x in v.items
    ensures v.Str? ==> forall x :: x in r <==> |x| == 1 && x[0] in v.s
  {
    match v
    case List(xs) => set x | x in xs
    case Str(s) => CharSetOfString(s); set k | 0 <= k < |s| :: [s[k]]
  }

  lemma CharSetOfString(s: string)
    ensures forall x :: x in (set k | 0 <= k < |s| :: [s[k]]) <==> |x| == 1 && x[0] in s
  {
    forall x | |x| == 1 && x[0] in s ensures x in (set k | 0 <= k < |s| :: [s[k]]) {
      var k :| 0 <= k < |s| && s[k] == x[0];
      assert x == [s[k]];
    }
  }

  /** `set(a) == set(b)`, the comparison used for list-valued canonical answers. */
  predicate SameSet(a: Value, b: Value)
    ensures a == b ==> SameSet(a, b)
    // a typed string can only match a list whose items are single characters
    ensures a.Str? && b.List? && SameSet(a, b) ==> forall x :: x in b.items ==> |x| == 1
  {
    AsSet(a) == AsSet(b)
  }

  /** Two lists compare equal as sets exactly when they have the same members. */
  lemma SameSetOfLists(xs: seq<string>, ys: seq<string>)
    ensures SameSet(List(xs), List(ys)) <==> (forall x :: x in xs <==> x in ys)
  {
    if forall x :: x in xs <==> x in ys {
      assert AsSet(List(xs)) == AsSet(List(ys));
    }
    if SameSet(List(xs), List(ys)) {
      forall x ensures x in xs <==> x in ys {
        assert x in xs <==> x in AsSet(List(xs));
        assert x in ys <==> x in AsSet(List(ys));
      }
    }
  }

  /** Reordering a submitted list never changes its set comparison. */
  lemma SameSetIgnoresOrder(xs: seq<string>, ys: seq<string>, c: Value)
    requires multiset(xs) == multiset(ys)
    ensures SameSet(List(xs), c) <==> SameSet(List(ys), c)
  {
    forall x ensures x in xs <==> x in ys {
      assert x in xs <==> x in multiset(xs);
      assert x in ys <==> x in multiset(ys);
    }
    SameSetOfLists(xs, ys);
  }

  /** Repeating an item of a submitted list never changes its set comparison. */
  lemma SameSetIgnoresDuplicates(xs: seq<string>, k: nat, c: Value)
    requires k < |xs|
    ensures SameSet(List(xs + [xs[k]]), c) <==> SameSet(List(xs), c)
  {
    assert AsSet(List(xs + [xs[k]])) == AsSet(List(xs));
  }

  /** A submission that misses a canonical item, or adds one, fails the set comparison. */
  lemma SameSetRejectsMissingOrExtra(xs: seq<string>, ys: seq<string>, y: string)
    requires (y in ys && y !in xs) || (y in xs && y !in ys)
    ensures !SameSet(List(xs), List(ys))
  {
    SameSetOfLists(xs, ys);
  }

  // ---------------------------------------------------------------------------
  // Score
  // ---------------------------------------------------------------------------

  /** `(correct / total) * 100`, exactly. */
  function Percent(correct: nat, total: nat): (score: real)
    requires total > 0
    ensures score * (total as real) == 100.0 * (correct as real)
    ensures correct <= total ==> 0.0 <= score <= 100.0
  {
    (correct as real / total as real) * 100.0
  }
}
