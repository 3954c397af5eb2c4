/** Text in byte order: sorting, removing repeats, and decimal numerals. */
module TextOrder {
  import opened Common

  predicate Less(a: string, b: string)
  {
    b != "" && (a == "" || a[0] < b[0] || (a[0] == b[0] && Less(a[1..], b[1..])))
  }

  lemma {:induction false} LessIsIrreflexive(a: string)
    ensures !Less(a, a)
  {
    if a != "" {
      LessIsIrreflexive(a[1..]);
    }
  }

  lemma {:induction false} LessIsTransitive(a: string, b: string, c: string)
    requires Less(a, b) && Less(b, c)
    ensures Less(a, c)
  {
    if a != "" && a[0] == b[0] == c[0] {
      LessIsTransitive(a[1..], b[1..], c[1..]);
    }
  }

  lemma {:induction false} LessIsTotal(a: string, b: string)
    ensures a == b || Less(a, b) || Less(b, a)
  {
    if a != "" && b != "" && a[0] == b[0] {
      LessIsTotal(a[1..], b[1..]);
      assert a == [a[0]] + a[1..] && b == [b[0]] + b[1..];
    }
  }

  // ---- Lists ----

  ghost predicate Sorted(s: seq<string>)
  {
    forall i, j | 0 <= i < j < |s| :: !Less(s[j], s[i])
  }

  ghost predicate StrictlySorted(s: seq<string>)
  {
    forall i, j | 0 <= i < j < |s| :: Less(s[i], s[j])
  }

  function Insert(s: seq<string>, x: string): seq<string>
  {
    if s == [] || !Less(s[0], x) then [x] + s else [s[0]] + Insert(s[1..], x)
  }

  function Sort(s: seq<string>): seq<string>
  {
    if s == [] then [] else Insert(Sort(s[1..]), s[0])
  }

  /** Keeps one of each group of equal neighbours. */
  function Dedup(s: seq<string>): seq<string>
  {
    if |s| < 2 then s
    else if s[0] == s[1] then Dedup(s[1..])
    else [s[0]] + Dedup(s[1..])
  }

  function Normalize(s: seq<string>): seq<string>
  {
    Dedup(Sort(s))
  }

  lemma {:induction false} InsertKeepsSorted(s: seq<string>, x: string)
    requires Sorted(s)
    ensures Sorted(Insert(s, x)) && multiset(Insert(s, x)) == multiset(s) + multiset{x}
  {
    hide Less;
    if s == [] || !Less(s[0], x) {
      forall j | 0 <= j < |s| ensures !Less(s[j], x) {
        if Less(s[j], x) {
          LessIsTotal(s[0], s[j]);
          if Less(s[0], s[j]) {
            LessIsTransitive(s[0], s[j], x);
          }
        }
      }
    } else {
      var rest := s[1..];
      InsertKeepsSorted(rest, x);
      assert s == [s[0]] + rest;
      var tail := Insert(rest, x);
      forall j | 0 <= j < |tail| ensures !Less(tail[j], s[0]) {
        assert tail[j] in multiset(tail);
        if tail[j] in rest {
          var k :| 0 <= k < |rest| && rest[k] == tail[j];
          assert s[k + 1] == tail[j];
        } else {
          assert tail[j] == x;
          if Less(x, s[0]) {
            LessIsTransitive(s[0], x, s[0]);
            LessIsIrreflexive(s[0]);
          }
        }
      }
    }
  }

  lemma {:induction false} SortSorts(s: seq<string>)
    ensures Sorted(Sort(s)) && multiset(Sort(s)) == multiset(s)
  {
    if s != [] {
      SortSorts(s[1..]);
      InsertKeepsSorted(Sort(s[1..]), s[0]);
      assert s == [s[0]] + s[1..];
    }
  }

  lemma {:induction false} DedupOfSorted(s: seq<string>)
    requires Sorted(s)
    ensures StrictlySorted(Dedup(s)) && Elements(Dedup(s)) == Elements(s)
    ensures s != [] ==> Dedup(s) != [] && Dedup(s)[0] == s[0]
  {
    if |s| >= 2 {
      var rest := s[1..];
      DedupOfSorted(rest);
      assert s == [s[0]] + rest;
      assert Elements(s) == {s[0]} + Elements(rest);
      if s[0] != s[1] {
        var tail := Dedup(rest);
        forall j | 0 <= j < |tail| ensures Less(s[0], tail[j]) {
          LessIsTotal(s[0], s[1]);
          assert tail[0] == s[1];
          if j > 0 {
            LessIsTransitive(s[0], tail[0], tail[j]);
          }
        }
      } else {
        assert s[0] in Elements(rest);
      }
    }
  }

  /** Normalizing gives a strictly sorted list of the same elements. */
  lemma NormalizeIsCanonical(s: seq<string>)
    ensures StrictlySorted(Normalize(s)) && Elements(Normalize(s)) == Elements(s)
  {
    SortSorts(s);
    DedupOfSorted(Sort(s));
    assert forall x :: x in Sort(s) <==> x in multiset(Sort(s));
    assert forall x :: x in s <==> x in multiset(s);
  }

  lemma NoElementsIff(s: seq<string>)
    ensures Elements(s) == {} <==> s == []
  {
    if s != [] {
      assert s[0] in Elements(s);
    }
  }

  /** There is only one such list. */
  lemma {:induction false} StrictlySortedIsUnique(a: seq<string>, b: seq<string>)
    requires StrictlySorted(a) && StrictlySorted(b) && Elements(a) == Elements(b)
    ensures a == b
  {
    NoElementsIff(a);
    NoElementsIff(b);
    if a != [] {
      FirstIsLeast(a, b);
      RestWithoutFirst(a);
      RestWithoutFirst(b);
      StrictlySortedIsUnique(a[1..], b[1..]);
      assert a == [a[0]] + a[1..] && b == [b[0]] + b[1..];
    }
  }

  lemma FirstIsLeast(a: seq<string>, b: seq<string>)
    requires StrictlySorted(a) && StrictlySorted(b) && Elements(a) == Elements(b) && a != [] && b != []
    ensures a[0] == b[0]
  {
    assert a[0] in Elements(b) && b[0] in Elements(a);
    var i :| 0 <= i < |b| && b[i] == a[0];
    var j :| 0 <= j < |a| && a[j] == b[0];
    if i > 0 && j > 0 {
      LessIsTransitive(a[0], b[0], a[0]);
      LessIsIrreflexive(a[0]);
    }
  }

  lemma RestWithoutFirst(a: seq<string>)
    requires StrictlySorted(a) && a != []
    ensures StrictlySorted(a[1..]) && Elements(a[1..]) == Elements(a) - {a[0]}
  {
    LessIsIrreflexive(a[0]);
    assert a == [a[0]] + a[1..];
  }

  /** So two lists normalize alike exactly when they have the same elements. */
  lemma NormalizeAlikeIff(a: seq<string>, b: seq<string>)
    ensures Normalize(a) == Normalize(b) <==> Elements(a) == Elements(b)
  {
    NormalizeIsCanonical(a);
    NormalizeIsCanonical(b);
    if Elements(a) == Elements(b) {
      StrictlySortedIsUnique(Normalize(a), Normalize(b));
    }
  }

  lemma NormalizeOfNormal(a: seq<string>)
    requires StrictlySorted(a)
    ensures Normalize(a) == a
  {
    NormalizeIsCanonical(a);
    StrictlySortedIsUnique(Normalize(a), a);
  }

  // ---- Numerals ----

  function Digit(d: nat): char
    requires d < 10
  {
    '0' + d as char
  }

  /** A number in decimal. */
  function Decimal(n: nat): (s: string)
    ensures s != "" && forall c | c in s :: '0' <= c <= '9'
  {
    if n < 10 then [Digit(n)] else Decimal(n / 10) + [Digit(n % 10)]
  }

  /** The value of a run of digits, if that is what the text is. */
  function Value(s: string): Option<nat>
  {
    if s == "" then Some(0) else
    var front := Value(s[..|s| - 1]);
    var last := s[|s| - 1];
    if front.None? || !('0' <= last <= '9') then None else Some(front.value * 10 + (last - '0') as nat)
  }

  /** `str::parse::<u64>`: digits, after an optional plus sign, whose value fits. */
  function ParseU64(s: string): Option<u64>
  {
    var digits := if s != "" && s[0] == '+' then s[1..] else s;
    if digits == "" then None else
    var value := Value(digits);
    if value.Some? && value.value < TWO_64 then Some(value.value) else None
  }

  lemma {:induction false} ValueOfDecimal(n: nat)
    ensures Value(Decimal(n)) == Some(n)
  {
    if n < 10 {
      assert [Digit(n)][..0] == "";
    } else {
      ValueOfDecimal(n / 10);
      assert Decimal(n)[..|Decimal(n)| - 1] == Decimal(n / 10);
    }
  }

  /** Parsing undoes printing of every number that fits, and rejects the rest. */
  lemma ParseOfDecimal(n: nat)
    ensures ParseU64(Decimal(n)) == if n < TWO_64 then Some(n) else None
  {
    ValueOfDecimal(n);
    assert Decimal(n)[0] in Decimal(n);
  }
}
