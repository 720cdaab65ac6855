/**
 Which relative paths are safe, and what normalising them does, in terms of the bytes at each position.
 */
module SafePaths {
  import opened Base
  import opened SyncCodec

  /** The bytes from i up to j lie between slashes or ends, and are one dot or two. */
  predicate DotsAt(p: Text, i: nat, j: nat) {
    && i <= j <= |p| && (i == 0 || p[i - 1] == 47) && (j == |p| || p[j] == 47)
    && (p[i..j] == [46] || p[i..j] == [46, 46])
  }

  lemma {:induction false} FirstIs(p: Text)
    ensures var n := |FirstComponent(p)|;
            FirstComponent(p) == p[..n] && 47 !in p[..n] && (n < |p| ==> p[n] == 47)
  {
    if p != [] && p[0] != 47 {
      FirstIs(p[1..]);
      var n := |FirstComponent(p[1..])|;
      assert p[..n + 1] == [p[0]] + p[1..][..n];
    }
  }

  lemma DotsShift(p: Text, k: nat, i: nat, j: nat)
    requires 0 < k <= |p| && p[k - 1] == 47
    ensures DotsAt(p[k..], i, j) <==> DotsAt(p, k + i, k + j)
  {
    if i <= j <= |p| - k {
      assert p[k..][i..j] == p[k + i..k + j];
    }
  }

  lemma {:induction false} DotsFound(p: Text) returns (i: nat, j: nat)
    requires HasDotComponent(p)
    ensures DotsAt(p, i, j)
    decreases |p|
  {
    var n := |FirstComponent(p)|;
    FirstIs(p);
    if p[..n] == [46] || p[..n] == [46, 46] {
      assert p[0..n] == p[..n];
      i, j := 0, n;
    } else {
      i, j := DotsFound(p[n + 1..]);
      DotsShift(p, n + 1, i, j);
      i, j := n + 1 + i, n + 1 + j;
    }
  }

  lemma {:induction false} DotsSeen(p: Text, i: nat, j: nat)
    requires DotsAt(p, i, j)
    ensures HasDotComponent(p)
    decreases |p|
  {
    var n := |FirstComponent(p)|;
    FirstIs(p);
    if i <= n {
      FirstOnly(p, i, j);
    } else {
      DotsShift(p, n + 1, i - n - 1, j - n - 1);
      DotsSeen(p[n + 1..], i - n - 1, j - n - 1);
    }
  }

  /** What begins within the first component is the first component. */
  lemma FirstOnly(p: Text, i: nat, j: nat)
    requires DotsAt(p, i, j) && i <= |FirstComponent(p)|
    ensures i == 0 && p[..|FirstComponent(p)|] == p[i..j]
  {
    var n := |FirstComponent(p)|;
    FirstIs(p);
  }

  /** Safe is: not empty, not absolute, and with no component that is a dot or two dots. */
  lemma SafeIff(p: Text)
    ensures IsSafePath(p) <==> p != [] && p[0] != 47 && forall i, j :: !DotsAt(p, i, j)
  {
    hide HasDotComponent, DotsAt;
    if HasDotComponent(p) {
      var _, _ := DotsFound(p);
    } else if i, j :| DotsAt(p, i, j) {
      DotsSeen(p, i, j);
    }
  }

  // ----- Normalising -----

  predicate NoDoubleSlash(p: Text) {
    forall i :: 0 < i < |p| ==> !(p[i - 1] == 47 && p[i] == 47)
  }

  lemma {:induction false} NormalisedIsSingle(p: Text)
    ensures NoDoubleSlash(Normalised(p)) && (NoDoubleSlash(p) ==> Normalised(p) == p)
    ensures p != [] ==> Normalised(p) != [] && Normalised(p)[0] == p[0]
  {
    if |p| >= 2 {
      NormalisedIsSingle(p[1..]);
      if NoDoubleSlash(p) {
        forall i | 0 < i < |p[1..]| ensures !(p[1..][i - 1] == 47 && p[1..][i] == 47) {
          assert p[1..][i - 1] == p[i] && p[1..][i] == p[i + 1];
        }
        assert p[0] != 47 || p[1] != 47;
      }
    }
  }

  /** Two slashes anywhere count as one. */
  lemma {:induction false} DoubleCountsOnce(a: Text, b: Text)
    ensures Normalised(a + [47, 47] + b) == Normalised(a + [47] + b)
    decreases |a|
  {
    var two, one := a + [47, 47] + b, a + [47] + b;
    if a == [] {
      assert two[1..] == one;
    } else {
      DoubleCountsOnce(a[1..], b);
      assert two[1..] == a[1..] + [47, 47] + b && one[1..] == a[1..] + [47] + b;
      assert two[1] == one[1];
    }
  }
}
