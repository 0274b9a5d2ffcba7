/** Extensions.swift: the `String` and `Array` helpers. */
module Extensions {
  import opened Text
  import Constants
  import Validators

  // ---------------------------------------------------------------------
  // String.isValidEmail and String.isValidPassword

  /** `String.isValidEmail`, which matches the same pattern as
      `Validators.isValidEmail`. Here the match is found directly: the only
      possible `@` is the first one (the local part cannot hold one) and the
      only possible dot before the top-level domain is the last one (the
      top-level domain is letters only). */
  predicate IsValidEmail(s: string)
    ensures IsValidEmail(s) <==> Validators.IsValidEmail(s)
  {
    EmailCheckersAgree(s);
    FirstAtLastDot(s)
  }

  /** The split at the first `@` and the last dot. */
  predicate FirstAtLastDot(s: string)
  {
    Validators.EmailSplitAt(s, IndexOf(s, '@'), LastIndexOf(s, '.'),
                            Validators.IsEmailLocalChar, Validators.IsEmailDomainChar)
  }

  /** Locating the first `@` and the last dot finds a match whenever there is
      one, so both spellings of the pattern accept the same strings. */
  lemma EmailCheckersAgree(s: string)
    ensures FirstAtLastDot(s) <==> Validators.IsValidEmail(s)
  {
    if Validators.IsValidEmail(s) {
      var at, dot :| 0 <= at < |s| && 0 <= dot < |s| &&
        Validators.EmailSplitAt(s, at, dot, Validators.IsEmailLocalChar, Validators.IsEmailDomainChar);
      assert IndexOf(s, '@') == at;
      assert LastIndexOf(s, '.') == dot;
    }
    if FirstAtLastDot(s) {
      var at, dot := IndexOf(s, '@'), LastIndexOf(s, '.');
      assert 0 <= at < |s| && 0 <= dot < |s|;
    }
  }

  /** `String.isValidPassword`: the same length rule as
      `Validators.isValidPassword`. */
  predicate IsValidPassword(s: string)
    ensures IsValidPassword(s) <==> Validators.IsValidPassword(s).isValid
  {
    |s| >= Constants.MinPasswordLength
  }

  // ---------------------------------------------------------------------
  // String.truncated(to:trailing:)

  /** `truncated(to:trailing:)`. A negative `length` traps in the source
      (`prefix` refuses it), hence `nat`. A string no longer than `length` is
      returned as it is; a longer one keeps its first `length` characters
      and gets `trailing` appended. */
  function Truncated(s: string, length: nat, trailing: string := "..."): (r: string)
    ensures |s| <= length ==> r == s
    ensures |s| > length ==> |r| == length + |trailing| && r[..length] == s[..length] && r[length..] == trailing
    ensures |r| <= |s| + |trailing|
  {
    if |s| > length then s[..length] + trailing else s
  }

  // ---------------------------------------------------------------------
  // Array.uniqued()

  /** The ids of the elements of `xs`. */
  ghost function Ids<T, K>(xs: seq<T>, id: T -> K): set<K>
  {
    set x | x in xs :: id(x)
  }

  /** What `filter { seen.insert($0.id).inserted }` keeps of `xs` when the ids
      in `seen` have been met before: each element whose id is new, in
      order, adding its id to `seen` as it goes. */
  function KeepFirstFrom<T, K(==)>(xs: seq<T>, id: T -> K, seen: set<K>): seq<T>
  {
    if xs == [] then []
    else if id(xs[0]) in seen then KeepFirstFrom(xs[1..], id, seen)
    else [xs[0]] + KeepFirstFrom(xs[1..], id, seen + {id(xs[0])})
  }

  /** The first element for each id, in order. */
  function KeepFirstPerId<T, K(==)>(xs: seq<T>, id: T -> K): seq<T>
  {
    KeepFirstFrom(xs, id, {})
  }

  /** `uniqued()` as the source runs it: one pass with a growing set of ids
      already seen. */
  method Uniqued<T, K(==)>(xs: seq<T>, id: T -> K) returns (r: seq<T>)
    ensures r == KeepFirstPerId(xs, id)
    ensures DistinctIds(r, id)
  {
    var seen: set<K> := {};
    r := [];
    var i := 0;
    while i < |xs|
      invariant i <= |xs|
      invariant r + KeepFirstFrom(xs[i..], id, seen) == KeepFirstPerId(xs, id)
    {
      assert xs[i..][1..] == xs[i + 1..];
      if id(xs[i]) !in seen {
        seen := seen + {id(xs[i])};
        r := r + [xs[i]];
      }
      i := i + 1;
    }
    assert r + [] == r;
    UniquedDistinct(xs, id);
  }

  predicate DistinctIds<T, K(==)>(xs: seq<T>, id: T -> K)
  {
    forall i, j :: 0 <= i < j < |xs| ==> id(xs[i]) != id(xs[j])
  }

  /** `a` is `b` with some elements left out, the rest in their order. */
  ghost predicate IsSubsequence<T>(a: seq<T>, b: seq<T>)
    decreases |b|
  {
    if a == [] then true
    else if b == [] then false
    else (a[0] == b[0] && IsSubsequence(a[1..], b[1..])) || IsSubsequence(a, b[1..])
  }

  /** Element `i` of `xs` is the first with its id. */
  predicate FirstWithItsId<T, K(==)>(xs: seq<T>, id: T -> K, i: int)
  {
    0 <= i < |xs| && forall j :: 0 <= j < i ==> id(xs[j]) != id(xs[i])
  }

  // ---------------------------------------------------------------------
  // What uniqued() guarantees

  lemma {:induction false} KeepFirstFromFacts<T, K>(xs: seq<T>, id: T -> K, seen: set<K>)
    ensures DistinctIds(KeepFirstFrom(xs, id, seen), id)
    ensures forall x :: x in KeepFirstFrom(xs, id, seen) ==> id(x) !in seen
    ensures Ids(KeepFirstFrom(xs, id, seen), id) == Ids(xs, id) - seen
  {
    if xs != [] {
      var rest := xs[1..];
      if id(xs[0]) in seen {
        KeepFirstFromFacts(rest, id, seen);
        assert Ids(xs, id) == {id(xs[0])} + Ids(rest, id) by {
          assert forall x :: x in xs <==> x == xs[0] || x in rest;
        }
      } else {
        var seen' := seen + {id(xs[0])};
        KeepFirstFromFacts(rest, id, seen');
        var tail := KeepFirstFrom(rest, id, seen');
        var r := [xs[0]] + tail;
        assert r == KeepFirstFrom(xs, id, seen);
        forall i, j | 0 <= i < j < |r| ensures id(r[i]) != id(r[j]) {
          if i == 0 {
            assert r[j] == tail[j - 1];
          } else {
            assert r[i] == tail[i - 1] && r[j] == tail[j - 1];
          }
        }
        assert forall x :: x in r <==> x == xs[0] || x in tail;
        assert forall x :: x in xs <==> x == xs[0] || x in rest;
        assert Ids(r, id) == {id(xs[0])} + Ids(tail, id);
        assert Ids(xs, id) == {id(xs[0])} + Ids(rest, id);
      }
    }
  }

  /** The ids in the result are pairwise distinct. */
  lemma UniquedDistinct<T, K>(xs: seq<T>, id: T -> K)
    ensures DistinctIds(KeepFirstPerId(xs, id), id)
  {
    KeepFirstFromFacts(xs, id, {});
  }

  /** No id is lost: the result has exactly the ids of the input. */
  lemma UniquedKeepsIds<T, K>(xs: seq<T>, id: T -> K)
    ensures Ids(KeepFirstPerId(xs, id), id) == Ids(xs, id)
  {
    KeepFirstFromFacts(xs, id, {});
  }

  lemma {:induction false} KeepFirstFromSubsequence<T, K>(xs: seq<T>, id: T -> K, seen: set<K>)
    ensures IsSubsequence(KeepFirstFrom(xs, id, seen), xs)
  {
    if xs != [] {
      if id(xs[0]) in seen {
        KeepFirstFromSubsequence(xs[1..], id, seen);
        SubsequenceDropHead(KeepFirstFrom(xs[1..], id, seen), xs);
      } else {
        KeepFirstFromSubsequence(xs[1..], id, seen + {id(xs[0])});
        var r := KeepFirstFrom(xs, id, seen);
        assert r[0] == xs[0] && r[1..] == KeepFirstFrom(xs[1..], id, seen + {id(xs[0])});
      }
    }
  }

  lemma SubsequenceDropHead<T>(a: seq<T>, b: seq<T>)
    requires b != [] && IsSubsequence(a, b[1..])
    ensures IsSubsequence(a, b)
  {
  }

  /** The result keeps the input's order: it is the input with some elements
      left out. */
  lemma UniquedIsSubsequence<T, K>(xs: seq<T>, id: T -> K)
    ensures IsSubsequence(KeepFirstPerId(xs, id), xs)
  {
    KeepFirstFromSubsequence(xs, id, {});
  }

  lemma {:induction false} KeepFirstFromKeepsFirst<T, K>(xs: seq<T>, id: T -> K, seen: set<K>, x: T)
    requires x in KeepFirstFrom(xs, id, seen)
    ensures exists i :: FirstWithItsId(xs, id, i) && xs[i] == x
  {
    KeepFirstFromFacts(xs, id, seen);
    var rest := xs[1..];
    if id(xs[0]) in seen {
      KeepFirstFromKeepsFirst(rest, id, seen, x);
      var i :| FirstWithItsId(rest, id, i) && rest[i] == x;
      assert id(x) != id(xs[0]);
      assert FirstWithItsId(xs, id, i + 1) && xs[i + 1] == x;
    } else if x == xs[0] {
      assert FirstWithItsId(xs, id, 0);
    } else {
      var seen' := seen + {id(xs[0])};
      assert x in KeepFirstFrom(rest, id, seen');
      KeepFirstFromFacts(rest, id, seen');
      KeepFirstFromKeepsFirst(rest, id, seen', x);
      var i :| FirstWithItsId(rest, id, i) && rest[i] == x;
      assert id(x) != id(xs[0]);
      assert FirstWithItsId(xs, id, i + 1) && xs[i + 1] == x;
    }
  }

  /** Every element kept is the first of the input with its id. */
  lemma UniquedKeepsFirst<T, K>(xs: seq<T>, id: T -> K, x: T)
    requires x in KeepFirstPerId(xs, id)
    ensures exists i :: FirstWithItsId(xs, id, i) && xs[i] == x
  {
    KeepFirstFromKeepsFirst(xs, id, {}, x);
  }

  lemma {:induction false} KeepFirstFromIdentity<T, K>(xs: seq<T>, id: T -> K, seen: set<K>)
    requires DistinctIds(xs, id)
    requires forall k :: 0 <= k < |xs| ==> id(xs[k]) !in seen
    ensures KeepFirstFrom(xs, id, seen) == xs
  {
    if xs != [] {
      var rest := xs[1..];
      assert forall k :: 0 <= k < |rest| ==> rest[k] == xs[k + 1];
      KeepFirstFromIdentity(rest, id, seen + {id(xs[0])});
    }
  }

  /** A list whose ids are already distinct is left as it is. */
  lemma UniquedIdentityOnDistinct<T, K>(xs: seq<T>, id: T -> K)
    requires DistinctIds(xs, id)
    ensures KeepFirstPerId(xs, id) == xs
  {
    KeepFirstFromIdentity(xs, id, {});
  }

  /** Applying `uniqued()` twice is the same as once. */
  lemma UniquedIdempotent<T, K>(xs: seq<T>, id: T -> K)
    ensures KeepFirstPerId(KeepFirstPerId(xs, id), id) == KeepFirstPerId(xs, id)
  {
    UniquedDistinct(xs, id);
    UniquedIdentityOnDistinct(KeepFirstPerId(xs, id), id);
  }
}
