/**
 * The parts of java.util the REST layer relies on: Properties, and
 * Arrays.sort / Arrays.binarySearch over String arrays in compareTo order.
 */
module JavaUtil {
  import opened Wrappers
  import opened JavaLang

  /** java.util.Properties, a mutable string-to-string dictionary (defaults are not modelled). */
  class Properties {
    var entries: map<string, string>

    constructor ()
      ensures entries == map[]
    {
      entries := map[];
    }

    /** setProperty(key, value): adds the key or overwrites its value. */
    method SetProperty(key: string, value: string)
      modifies this
      ensures entries == old(entries)[key := value]
    {
      entries := entries[key := value];
    }
  }

  /** What a possibly-null Properties reference holds: None for null, else its entries. */
  function Contents(p: Properties?): Option<map<string, string>>
    reads p
  {
    if p == null then None else Some(p.entries)
  }

  // ---------------------------------------------------------------------------
  // Arrays.sort and Arrays.binarySearch on String[]

  /** Every element is at most every later one, in compareTo order. */
  ghost predicate Sorted(s: seq<string>)
  {
    forall i, j | 0 <= i < j < |s| :: LexLe(s[i], s[j])
  }

  ghost predicate AdjacentSorted(s: seq<string>)
  {
    forall k | 0 < k < |s| :: LexLe(s[k - 1], s[k])
  }

  lemma {:induction false} AdjacentSortedSpan(s: seq<string>, i: int, j: int)
    requires AdjacentSorted(s)
    requires 0 <= i <= j < |s|
    ensures LexLe(s[i], s[j])
    decreases j - i
  {
    if i == j {
      LexLessIrreflexive(s[i]);
    } else {
      AdjacentSortedSpan(s, i, j - 1);
      LexLeTransitive(s[i], s[j - 1], s[j]);
    }
  }

  /** Ordering neighbours is enough: compareTo is transitive. */
  lemma AdjacentSortedIsSorted(s: seq<string>)
    requires AdjacentSorted(s)
    ensures Sorted(s)
  {
    forall i, j | 0 <= i < j < |s|
      ensures LexLe(s[i], s[j])
    {
      AdjacentSortedSpan(s, i, j);
    }
  }

  /**
   * Arrays.sort(a): sorts in place into compareTo order, keeping the same elements.
   * (The JDK uses a merge sort; any sort meets this contract.)
   */
  method Sort(a: array<string>)
    modifies a
    ensures Sorted(a[..])
    ensures multiset(a[..]) == multiset(old(a[..]))
  {
    if a.Length == 0 {
      return;
    }
    var i := 1;
    while i < a.Length
      invariant 1 <= i <= a.Length
      invariant AdjacentSorted(a[..i])
      invariant multiset(a[..]) == multiset(old(a[..]))
    {
      Insert(a, i);
      i := i + 1;
    }
    assert a[..] == a[..i];
    AdjacentSortedIsSorted(a[..]);
  }

  /** One step of the insertion sort: moves a[i] back into the ordered prefix a[..i]. */
  method Insert(a: array<string>, i: int)
    requires 0 < i < a.Length
    requires AdjacentSorted(a[..i])
    modifies a
    ensures AdjacentSorted(a[..i + 1])
    ensures multiset(a[..]) == multiset(old(a[..]))
  {
    var j := i;
    while j > 0 && LexLess(a[j], a[j - 1])
      invariant 0 <= j <= i
      invariant forall k | 0 < k < j :: LexLe(a[k - 1], a[k])
      invariant forall k | j < k <= i :: LexLe(a[k - 1], a[k])
      invariant 0 < j < i ==> LexLe(a[j - 1], a[j + 1])
      invariant multiset(a[..]) == multiset(old(a[..]))
    {
      LexLessAsymmetric(a[j], a[j - 1]);
      Swap(a, j);
      j := j - 1;
    }
  }

  /** Exchanges a[j - 1] and a[j]. */
  method Swap(a: array<string>, j: int)
    requires 0 < j < a.Length
    modifies a
    ensures a[..] == old(a[..])[j - 1 := old(a[j])][j := old(a[j - 1])]
    ensures multiset(a[..]) == multiset(old(a[..]))
  {
    a[j - 1], a[j] := a[j], a[j - 1];
  }

  /**
   * Arrays.binarySearch(a, key) on a sorted array: the index of an element equal
   * to `key`, or -(insertion point) - 1 when there is none.
   */
  method BinarySearch(a: array<string>, key: string) returns (r: int)
    requires Sorted(a[..])
    ensures r < 0 <==> key !in a[..]
    ensures 0 <= r ==> r < a.Length && a[r] == key
    ensures r < 0 ==> var ins := -(r + 1);
      ins <= a.Length
      && (forall k | 0 <= k < ins :: LexLess(a[k], key))
      && (forall k | ins <= k < a.Length :: LexLess(key, a[k]))
  {
    var low, high := 0, a.Length - 1;
    while low <= high
      invariant 0 <= low <= high + 1 <= a.Length
      invariant forall k | 0 <= k < low :: LexLess(a[k], key)
      invariant forall k | high < k < a.Length :: LexLess(key, a[k])
    {
      // (low + high) >>> 1 in the JDK: both are non-negative ints
      var mid := (low + high) / 2;
      if LexLess(a[mid], key) {
        forall k | low <= k <= mid
          ensures LexLess(a[k], key)
        {
          if k < mid {
            LexLeLessTransitive(a[k], a[mid], key);
          }
        }
        low := mid + 1;
      } else if LexLess(key, a[mid]) {
        forall k | mid <= k <= high
          ensures LexLess(key, a[k])
        {
          if mid < k {
            LexLessLeTransitive(key, a[mid], a[k]);
          }
        }
        high := mid - 1;
      } else {
        LexLessTotal(a[mid], key);
        return mid;
      }
    }
    forall k | 0 <= k < a.Length
      ensures a[k] != key
    {
      if a[k] == key {
        LexLessIrreflexive(key);
      }
    }
    r := -(low + 1);
  }
}
