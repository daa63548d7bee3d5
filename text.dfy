/** Python string operations used by the label parsers and the result shaping:
    `sub in s`, `s.split(sep)`, `s.replace('_', ' ')`, `s.lower()` and the
    decimal rendering of an index inside an f-string. Strings are `seq<char>`. */
module Text {

  import opened Common

  /** `sub` occurs in `s` starting at position `i`. */
  predicate OccursAt(s: string, sub: string, i: nat)
  {
    i + |sub| <= |s| && s[i..i + |sub|] == sub
  }

  /** Character-by-character comparison of `sub[t..]` with `s` from position `k + t`. */
  predicate MatchFrom(s: string, sub: string, k: nat, t: nat)
    requires k + |sub| <= |s| && t <= |sub|
    decreases |sub| - t
  {
    t == |sub| || (s[k + t] == sub[t] && MatchFrom(s, sub, k, t + 1))
  }

  lemma {:induction false} MatchFromIff(s: string, sub: string, k: nat, t: nat)
    requires k + |sub| <= |s| && t <= |sub|
    ensures MatchFrom(s, sub, k, t) <==> s[k + t..k + |sub|] == sub[t..]
    decreases |sub| - t
  {
    if t < |sub| {
      MatchFromIff(s, sub, k, t + 1);
      assert s[k + t..k + |sub|] == [s[k + t]] + s[k + t + 1..k + |sub|];
      assert sub[t..] == [sub[t]] + sub[t + 1..];
    }
  }

  /** Leftmost occurrence of `sub` in `s` at or after position `k`. */
  function FindFrom(s: string, sub: string, k: nat): (r: Option<nat>)
    ensures r.Some? ==> k <= r.value && OccursAt(s, sub, r.value)
    ensures r.Some? ==> forall j :: k <= j < r.value ==> !OccursAt(s, sub, j)
    ensures r.None? ==> forall j :: k <= j ==> !OccursAt(s, sub, j)
    decreases |s| - k
  {
    if k + |sub| > |s| then None
    else
      MatchFromIff(s, sub, k, 0);
      if MatchFrom(s, sub, k, 0) then Some(k)
      else FindFrom(s, sub, k + 1)
  }

  /** Leftmost occurrence of `sub` in `s` (Python's `s.find(sub)`, with `None` for -1). */
  function Find(s: string, sub: string): (r: Option<nat>)
    ensures r.Some? ==> OccursAt(s, sub, r.value) && forall j: nat :: j < r.value ==> !OccursAt(s, sub, j)
    ensures r.None? ==> forall j: nat :: !OccursAt(s, sub, j)
  {
    FindFrom(s, sub, 0)
  }

  /** Python's `sub in s` for strings. */
  predicate Contains(s: string, sub: string)
  {
    Find(s, sub).Some?
  }

  /** `sub in s` holds exactly when some position of `s` starts an occurrence of `sub`. */
  lemma ContainsIff(s: string, sub: string)
    ensures Contains(s, sub) <==> exists i: nat :: OccursAt(s, sub, i)
  {
    if Contains(s, sub) {
      assert OccursAt(s, sub, Find(s, sub).value);
    }
  }

  /** Python's `s.split(sep)` for a non-empty separator: cut at the leftmost
      occurrence, then split the rest, so occurrences never overlap. */
  function Split(s: string, sep: string): (parts: seq<string>)
    requires |sep| > 0
    ensures |parts| >= 1
    ensures |parts| >= 2 <==> Contains(s, sep)
    decreases |s|
  {
    match Find(s, sep)
    case None => [s]
    case Some(i) => [s[..i]] + Split(s[i + |sep|..], sep)
  }

  /** Python's `sep.join(parts)`. */
  function Join(parts: seq<string>, sep: string): string
  {
    if parts == [] then ""
    else if |parts| == 1 then parts[0]
    else parts[0] + sep + Join(parts[1..], sep)
  }

  /** Joining the pieces of a split with the same separator gives the string back. */
  lemma {:induction false} JoinSplit(s: string, sep: string)
    requires |sep| > 0
    ensures Join(Split(s, sep), sep) == s
    decreases |s|
  {
    match Find(s, sep)
    case None =>
    case Some(i) =>
      var rest := s[i + |sep|..];
      var tail := Split(rest, sep);
      JoinSplit(rest, sep);
      assert Split(s, sep) == [s[..i]] + tail;
      assert Join([s[..i]] + tail, sep) == s[..i] + sep + Join(tail, sep) by {
        assert ([s[..i]] + tail)[1..] == tail;
      }
      assert s == s[..i] + sep + rest by {
        assert s[i..i + |sep|] == sep;
      }
  }

  /** No piece of a split contains the separator. */
  lemma {:induction false} SplitPiecesFree(s: string, sep: string)
    requires |sep| > 0
    ensures forall p :: p in Split(s, sep) ==> !Contains(p, sep)
    decreases |s|
  {
    match Find(s, sep)
    case None =>
    case Some(i) =>
      var head := s[..i];
      SplitPiecesFree(s[i + |sep|..], sep);
      forall j: nat
        ensures !OccursAt(head, sep, j)
      {
        if j + |sep| <= |head| {
          assert forall q :: j <= q < j + |sep| ==> head[q] == s[q];
          assert s[j..j + |sep|] == head[j..j + |sep|];
          assert !OccursAt(s, sep, j);
        }
      }
  }

  /** A string that contains the separator splits into at least two pieces; the
      first is everything before the leftmost occurrence, the rest split the remainder. */
  lemma SplitAtFirst(s: string, sep: string)
    requires |sep| > 0 && Contains(s, sep)
    ensures var i := Find(s, sep).value;
      Split(s, sep) == [s[..i]] + Split(s[i + |sep|..], sep)
    ensures |Split(s, sep)| >= 2
  {
  }

  /** Position of an occurrence found in a suffix, seen from the whole string. */
  function ShiftBy(r: Option<nat>, d: nat): Option<nat>
  {
    match r
    case None => None
    case Some(i) => Some(d + i)
  }

  /** When no occurrence starts inside `x`, searching `x + y` amounts to searching `y`. */
  lemma FindConcat(x: string, y: string, sub: string)
    requires forall j: nat :: j < |x| ==> !OccursAt(x + y, sub, j)
    ensures Find(x + y, sub) == ShiftBy(Find(y, sub), |x|)
  {
    var s := x + y;
    forall i: nat
      ensures OccursAt(s, sub, |x| + i) <==> OccursAt(y, sub, i)
    {
      if |x| + i + |sub| <= |s| {
        assert s[|x| + i..|x| + i + |sub|] == y[i..i + |sub|];
      }
    }
    match Find(y, sub)
    case None =>
      assert forall k: nat :: k >= |x| ==> !OccursAt(s, sub, k) by {
        forall k: nat | k >= |x| ensures !OccursAt(s, sub, k) {
          assert !OccursAt(y, sub, k - |x|);
        }
      }
    case Some(i) =>
      assert OccursAt(s, sub, |x| + i);
      forall j: nat | j < |x| + i
        ensures !OccursAt(s, sub, j)
      {
        if j >= |x| { assert !OccursAt(y, sub, j - |x|); }
      }
  }

  /** Every character of `g` is an underscore. */
  predicate Underscores(g: string)
  {
    forall i :: 0 <= i < |g| ==> g[i] == '_'
  }

  /** From position `i` on, no two adjacent characters of `s` are both underscores
      (written recursively so that it can be evaluated on a short literal). */
  predicate RunFreeFrom(s: string, i: nat)
    decreases |s| - i
  {
    i + 1 >= |s| || ((s[i] != '_' || s[i + 1] != '_') && RunFreeFrom(s, i + 1))
  }

  lemma {:induction false} RunFreeFromAt(s: string, i: nat, j: nat)
    requires RunFreeFrom(s, i) && i <= j && j + 1 < |s|
    ensures s[j] != '_' || s[j + 1] != '_'
    decreases j - i
  {
    if i < j {
      RunFreeFromAt(s, i + 1, j);
    }
  }

  /** `s` holds no two adjacent underscores and does not end in one, so no
      separator of two or more underscores can start inside it. */
  predicate Plain(s: string)
  {
    RunFreeFrom(s, 0) && (|s| > 0 ==> s[|s| - 1] != '_')
  }

  /** A non-empty plain string that does not start with an underscore either. */
  predicate PlainWord(s: string)
  {
    Plain(s) && |s| > 0 && s[0] != '_'
  }

  lemma {:induction false} RunFreeFromAll(s: string, i: nat)
    requires forall j :: i <= j && j + 1 < |s| ==> s[j] != '_' || s[j + 1] != '_'
    ensures RunFreeFrom(s, i)
    decreases |s| - i
  {
    if i + 1 < |s| {
      RunFreeFromAll(s, i + 1);
    }
  }

  /** Underscore-free text is plain. */
  lemma NoUnderscorePlain(s: string)
    requires '_' !in s
    ensures Plain(s)
  {
    RunFreeFromAll(s, 0);
  }

  /** Two plain words joined by a single underscore make a plain word. */
  lemma PlainJoin(a: string, b: string)
    requires PlainWord(a) && PlainWord(b)
    ensures PlainWord(a + "_" + b)
  {
    var s := a + "_" + b;
    forall j | 0 <= j && j + 1 < |s|
      ensures s[j] != '_' || s[j + 1] != '_'
    {
      if j + 1 < |a| {
        RunFreeFromAt(a, 0, j);
      } else if j > |a| {
        RunFreeFromAt(b, 0, j - |a| - 1);
      }
    }
    RunFreeFromAll(s, 0);
  }

  /** Searching `a + rest` for an underscore separator, with `a` plain, amounts to searching `rest`. */
  lemma FindAfterPlain(a: string, rest: string, sep: string)
    requires Plain(a) && |sep| >= 2 && Underscores(sep)
    ensures Find(a + rest, sep) == ShiftBy(Find(rest, sep), |a|)
  {
    var s := a + rest;
    forall j: nat | j < |a|
      ensures !OccursAt(s, sep, j)
    {
      if j + |sep| <= |s| {
        assert s[j..j + |sep|][0] == s[j] == a[j];
        assert s[j..j + |sep|][1] == s[j + 1];
        if j + 1 < |a| {
          RunFreeFromAt(a, 0, j);
          assert s[j + 1] == a[j + 1];
        }
      }
    }
    FindConcat(a, rest, sep);
  }

  /** A plain string holds no underscore separator. */
  lemma PlainHoldsNone(a: string, sep: string)
    requires Plain(a) && |sep| >= 2 && Underscores(sep)
    ensures Find(a, sep) == None
  {
    FindAfterPlain(a, "", sep);
    assert a + "" == a;
  }

  /** A run of underscores shorter than the separator, followed by a character
      that is not an underscore, holds no start of the separator. */
  lemma FindAfterGap(g: string, rest: string, sep: string)
    requires Underscores(g) && Underscores(sep) && |g| < |sep|
    requires |rest| > 0 && rest[0] != '_'
    ensures Find(g + rest, sep) == ShiftBy(Find(rest, sep), |g|)
  {
    var s := g + rest;
    forall j: nat | j < |g|
      ensures !OccursAt(s, sep, j)
    {
      if j + |sep| <= |s| {
        assert s[j..j + |sep|][|g| - j] == s[|g|] == rest[0];
      }
    }
    FindConcat(g, rest, sep);
  }

  /** The separator is found at the very start of a string that begins with it. */
  lemma FindAtStart(sub: string, y: string)
    ensures Find(sub + y, sub) == Some(0)
  {
    assert (sub + y)[0..|sub|] == sub;
    assert OccursAt(sub + y, sub, 0);
  }

  /** The text before the leftmost occurrence of `sep`, or all of `s` when there is none. */
  function FirstPiece(s: string, sep: string): string
  {
    match Find(s, sep)
    case None => s
    case Some(j) => s[..j]
  }

  /** The first piece of a split is the text before the leftmost separator. */
  lemma SplitHead(s: string, sep: string)
    requires |sep| > 0
    ensures Split(s, sep)[0] == FirstPiece(s, sep)
  {
  }

  /** The first piece of `a + sep + rest`, for a plain `a`, is `a`. */
  lemma FirstPieceBefore(a: string, sep: string, rest: string)
    requires Plain(a) && |sep| >= 2 && Underscores(sep)
    ensures FirstPiece(a + sep + rest, sep) == a
  {
    FindAtStart(sep, rest);
    FindAfterPlain(a, sep + rest, sep);
    assert a + sep + rest == a + (sep + rest);
  }

  /** A string holding `___` also holds `__`. */
  lemma TripleHoldsDouble(s: string)
    ensures Contains(s, "___") ==> Contains(s, "__")
  {
    ContainsIff(s, "___");
    ContainsIff(s, "__");
    if Contains(s, "___") {
      var i: nat :| OccursAt(s, "___", i);
      assert s[i..i + 2] == s[i..i + 3][..2];
      assert OccursAt(s, "__", i);
    }
  }

  /** Python's `s.replace('_', ' ')`: every underscore becomes a space. */
  function ReplaceUnderscores(s: string): (r: string)
    ensures |r| == |s| && '_' !in r
  {
    seq(|s|, i requires 0 <= i < |s| => if s[i] == '_' then ' ' else s[i])
  }

  function LowerChar(c: char): char
  {
    if 'A' <= c <= 'Z' then (c as int - 'A' as int + 'a' as int) as char else c
  }

  /** Python's `s.lower()` on ASCII letters; every other character is kept. */
  function Lower(s: string): string
  {
    seq(|s|, i requires 0 <= i < |s| => LowerChar(s[i]))
  }

  function DigitChar(d: nat): (c: char)
    requires d < 10
    ensures '0' <= c <= '9'
  {
    (d + '0' as int) as char
  }

  /** Decimal rendering of a non-negative integer, as in `f"{idx}"`. */
  function NatToString(n: nat): (r: string)
    ensures |r| > 0
    ensures forall i :: 0 <= i < |r| ==> '0' <= r[i] <= '9'
    ensures n > 0 ==> r[0] != '0'
    decreases n
  {
    if n < 10 then [DigitChar(n)] else NatToString(n / 10) + [DigitChar(n % 10)]
  }

  /** Reads a string of decimal digits back as a number (Python's `int(s)`). */
  function ParseDigits(s: string): nat
    requires forall i :: 0 <= i < |s| ==> '0' <= s[i] <= '9'
  {
    if s == [] then 0
    else ParseDigits(s[..|s| - 1]) * 10 + (s[|s| - 1] as int - '0' as int)
  }

  /** The decimal rendering reads back as the number it came from. */
  lemma {:induction false} ParseNatToString(n: nat)
    ensures ParseDigits(NatToString(n)) == n
    decreases n
  {
    if n >= 10 {
      ParseNatToString(n / 10);
      var s := NatToString(n);
      assert s[..|s| - 1] == NatToString(n / 10);
    }
  }
}
