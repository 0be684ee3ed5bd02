/** Options, bytes and the string operations the gateway's Go code leans on. */
module Text {

  datatype Option<+T> = None | Some(value: T)

  newtype byte = x: int | 0 <= x < 256

  type Bytes = seq<byte>

  const NEWLINE: byte := 10
  const SPACE: byte := 32
  const COLON: byte := 58

  /** strings.IndexByte, with |s| standing for "absent". */
  function IndexOf(s: string, c: char): (i: nat)
    ensures i <= |s|
    ensures c !in s[..i]
    ensures i < |s| ==> s[i] == c
  {
    if s == [] || s[0] == c then 0 else
    var i := 1 + IndexOf(s[1..], c);
    assert s[..i] == [s[0]] + s[1..][..i - 1];
    i
  }

  datatype CutResult = CutResult(before: string, after: string, found: bool)

  /** strings.Cut for a one-character separator. */
  function Cut(s: string, c: char): (r: CutResult)
    ensures c !in r.before
    ensures if r.found then s == r.before + [c] + r.after else s == r.before && r.after == ""
  {
    var i := IndexOf(s, c);
    if i < |s| then CutResult(s[..i], s[i + 1..], true) else CutResult(s, "", false)
  }

  /** Cutting undoes joining exactly when the first part is free of the separator. */
  lemma CutJoin(a: string, c: char, b: string)
    ensures Cut(a + [c] + b, c) == CutResult(a, b, true) <==> c !in a
  {
    var s := a + [c] + b;
    assert s[|a|] == c && s[..|a|] == a && s[|a| + 1..] == b;
    if c !in a {
      IndexOfIs(s, c, |a|);
    }
  }

  lemma {:induction false} IndexOfIs(s: string, c: char, i: nat)
    requires i < |s| && s[i] == c && c !in s[..i]
    ensures IndexOf(s, c) == i
  {
    if i > 0 {
      assert s[..i][0] == s[0];
      assert s[1..][..i - 1] == s[..i][1..];
      IndexOfIs(s[1..], c, i - 1);
    }
  }

  /** Joining with a separator loses nothing when the first parts are free of it. */
  lemma JoinInjective(a: string, b: string, a': string, b': string, c: char)
    requires c !in a && c !in a'
    requires a + [c] + b == a' + [c] + b'
    ensures a == a' && b == b'
  {
    CutJoin(a, c, b);
    CutJoin(a', c, b');
  }

  /** strings.CutPrefix, ignoring whether the prefix was there. */
  function CutPrefix(s: string, p: string): (r: string)
    ensures p <= s ==> s == p + r
    ensures !(p <= s) ==> r == s
  {
    if p <= s then s[|p|..] else s
  }

  predicate HasSuffix(s: string, t: string) {
    |t| <= |s| && s[|s| - |t|..] == t
  }

  /** Go's < on strings. */
  predicate Less(a: string, b: string) {
    b != [] && (a == [] || a[0] < b[0] || (a[0] == b[0] && Less(a[1..], b[1..])))
  }

  /** The first difference decides. */
  predicate DiffersAt(a: string, b: string, k: int) {
    0 <= k < |a| && k < |b| && a[..k] == b[..k] && a[k] < b[k]
  }

  /** a is a proper prefix of b, or has the smaller character where they first differ. */
  lemma {:induction false} LessMeans(a: string, b: string)
    ensures Less(a, b) <==> a < b || exists k :: DiffersAt(a, b, k)
  {
    if a != [] && b != [] {
      if a[0] == b[0] {
        assert a == [a[0]] + a[1..] && b == [b[0]] + b[1..];
        LessMeans(a[1..], b[1..]);
        forall k | DiffersAt(a[1..], b[1..], k)
          ensures DiffersAt(a, b, k + 1)
        {
          assert a[..k + 1] == [a[0]] + a[1..][..k] && b[..k + 1] == [b[0]] + b[1..][..k];
        }
        forall k | DiffersAt(a, b, k)
          ensures DiffersAt(a[1..], b[1..], k - 1)
        {
          assert a[1..][..k - 1] == a[..k][1..] && b[1..][..k - 1] == b[..k][1..];
        }
      } else {
        assert a[0] < b[0] ==> DiffersAt(a, b, 0);
        assert forall k :: 0 < k <= |a| && k <= |b| ==> a[..k][0] != b[..k][0];
      }
    }
  }

  /** Go's < on strings is a strict total order. */
  lemma {:induction false} LessTotal(a: string, b: string)
    ensures !Less(a, a)
    ensures a == b || Less(a, b) || Less(b, a)
    ensures !(Less(a, b) && Less(b, a))
  {
    if a != [] {
      LessTotal(a[1..], if b == [] then [] else b[1..]);
      if b != [] && a[0] == b[0] && a[1..] == b[1..] {
        assert a == [a[0]] + a[1..] && b == [b[0]] + b[1..];
      }
    }
  }

  lemma {:induction false} LessTransitive(a: string, b: string, c: string)
    requires Less(a, b) && Less(b, c)
    ensures Less(a, c)
  {
    if a != [] && a[0] == b[0] == c[0] {
      LessTransitive(a[1..], b[1..], c[1..]);
    }
  }
}
