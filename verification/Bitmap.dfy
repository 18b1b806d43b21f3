/** The 256-bit position set behind the route's closing check, and the vector packed
    beside it (swap_route_v3.rs). */
module Bitmap {
  import opened Base
  import opened Words

  function Mask(i: bv6): bv64 { (1 as bv64) << i }

  predicate Meets(word: bv64, mask: bv64) { And(word, mask) != 0 }

  predicate Bit(word: bv64, i: bv6) { Meets(word, Mask(i)) }

  lemma OrMeets(w: bv64, m: bv64, n: bv64)
    ensures Meets(Or(w, m), n) <==> Meets(w, n) || Meets(m, n)
  {
    hide And;
    hide Or;
    if Meets(w, n) {
      FirstMeets(w, m, n);
    } else if Meets(m, n) {
      SecondMeets(w, m, n);
    } else {
      NeitherMeets(w, m, n);
    }
  }

  lemma MaskMeets(i: bv6, j: bv6)
    ensures Bit(Mask(i), j) <==> i == j
  {
  }

  /** Or-ing a mask in sets its bit and no other. */
  lemma OrSetsOneBit(word: bv64, i: bv6, j: bv6)
    ensures Bit(Or(word, Mask(i)), j) <==> i == j || Bit(word, j)
  {
    hide Or;
    hide Mask;
    hide Meets;
    MaskMeets(i, j);
    OrMeets(word, Mask(i), Mask(j));
  }

  lemma ZeroHasNoBit(j: bv6)
    ensures !Bit(0, j)
  {
  }

  /** An octal digit. */
  function Digit(i: nat): (d: bv3)
    requires i < 8
    ensures d as nat == i
  {
    i as bv3
  }

  function TwoDigits(high: bv3, low: bv3): bv6 { ((high as bv6) << 3) | (low as bv6) }

  lemma TwoDigitsApart(a: bv3, b: bv3, c: bv3, d: bv3)
    ensures TwoDigits(a, b) == TwoDigits(c, d) <==> a == c && b == d
  {
  }

  /** A bit position inside a word. */
  function Place(i: nat): bv6
    requires i < 64
  {
    TwoDigits(Digit(i / 8), Digit(i % 8))
  }

  lemma PlaceInjective(i: nat, j: nat)
    requires i < 64 && j < 64
    ensures Place(i) == Place(j) <==> i == j
  {
    hide TwoDigits;
    TwoDigitsApart(Digit(i / 8), Digit(i % 8), Digit(j / 8), Digit(j % 8));
  }

  lemma SameWordAndPlace(i: nat, j: nat)
    ensures i / 64 == j / 64 && i % 64 == j % 64 <==> i == j
  {
  }

  /** Whether four words hold `index`. */
  predicate Holds(words: seq<bv64>, index: int)
    requires |words| == 4
  {
    0 <= index < 256 && Bit(words[index / 64], Place(index % 64))
  }

  /** Rewriting one word changes what that word says, and nothing else. */
  lemma RewritingOne(words: seq<bv64>, w: nat, word: bv64, j: nat)
    requires |words| == 4 && w < 4 && j < 256
    ensures Holds(words[w := word], j) <==> if j / 64 == w then Bit(word, Place(j % 64)) else Holds(words, j)
  {
    hide Place;
    hide Bit;
  }

  /** Four words with one bit of one of them raised. */
  function Raised(words: seq<bv64>, w: nat, p: bv6): (after: seq<bv64>)
    requires |words| == 4 && w < 4
    ensures |after| == 4
  {
    words[w := Or(words[w], Mask(p))]
  }

  lemma RaisingBit(words: seq<bv64>, w: nat, p: bv6, j: nat)
    requires |words| == 4 && w < 4 && j < 256
    ensures Holds(Raised(words, w, p), j) <==> (j / 64 == w && Place(j % 64) == p) || Holds(words, j)
  {
    hide Place;
    hide Bit;
    hide Mask;
    hide Or;
    RewritingOne(words, w, Or(words[w], Mask(p)), j);
    OrSetsOneBit(words[w], p, Place(j % 64));
  }

  lemma SettingOne(words: seq<bv64>, index: nat, j: nat)
    requires |words| == 4 && index < 256 && j < 256
    ensures Holds(Raised(words, index / 64, Place(index % 64)), j) <==> j == index || Holds(words, j)
  {
    hide Place;
    hide Holds;
    hide Raised;
    RaisingBit(words, index / 64, Place(index % 64), j);
    SameWordAndPlace(index, j);
    PlaceInjective(index % 64, j % 64);
  }

  /** Four words standing for a set of positions below 256. */
  class TitanPdaBitmap {
    const bits: array<bv64>

    ghost predicate Valid()
      reads bits
    {
      bits.Length == 4
    }

    ghost function Members(): set<int>
      requires Valid()
      reads bits
    {
      set i | 0 <= i < 256 && Holds(bits[..], i)
    }

    constructor ()
      ensures Valid() && fresh(bits) && Members() == {}
    {
      bits := new bv64[4](_ => 0);
      new;
      forall i | 0 <= i < 256 ensures !Holds(bits[..], i) {
        ZeroHasNoBit(Place(i % 64));
      }
    }

    method Set(index: nat)
      requires Valid()
      modifies bits
      ensures Valid()
      ensures Members() == old(Members()) + if index < 256 then {index as int} else {}
    {
      hide Bit;
      hide Place;
      hide Mask;
      if index < 256 {
        ghost var before := bits[..];
        bits[index / 64] := bits[index / 64] | Mask(Place(index % 64));
        assert bits[..] == Raised(before, index / 64, Place(index % 64));
        forall j: nat | j < 256 ensures Holds(bits[..], j) <==> j == index || Holds(before, j) {
          SettingOne(before, index, j);
        }
      }
    }

    method IsSet(index: nat) returns (isSet: bool)
      requires Valid()
      ensures isSet <==> index in Members()
    {
      hide Bit;
      hide Place;
      isSet := index < 256 && Bit(bits[index / 64], Place(index % 64));
    }
  }

  // ---- The created-ATA flags ------------------------------------------------------

  /** A `u16` of flags, one a route mint. */
  function Flag(i: bv4): bv16 { (1 as bv16) << i }

  function FlagPlace(i: nat): bv4
    requires i < 16
  {
    i as bv4
  }

  predicate FlagsOverlap(a: bv16, b: bv16) { a & b != 0 }

  predicate HasFlag(flags: bv16, i: bv4) { FlagsOverlap(flags, Flag(i)) }

  predicate Flagged(flags: bv16, i: int) {
    0 <= i < 16 && HasFlag(flags, FlagPlace(i))
  }

  ghost function FlagSet(flags: bv16): set<int> {
    set i | 0 <= i < 16 && Flagged(flags, i)
  }

  lemma FlagsNonZero(a: bv16, b: bv16)
    ensures a | b != 0 <==> a != 0 || b != 0
  {
  }

  lemma FlagsMeet(w: bv16, m: bv16, n: bv16)
    ensures FlagsOverlap(w | m, n) <==> FlagsOverlap(w, n) || FlagsOverlap(m, n)
  {
    assert (w | m) & n == (w & n) | (m & n);
    FlagsNonZero(w & n, m & n);
  }

  lemma FlagMeetsFlag(i: bv4, j: bv4)
    ensures HasFlag(Flag(i), j) <==> i == j
  {
  }

  lemma FlagMeets(flags: bv16, i: bv4, j: bv4)
    ensures HasFlag(flags | Flag(i), j) <==> i == j || HasFlag(flags, j)
  {
    FlagMeetsFlag(i, j);
    FlagsMeet(flags, Flag(i), Flag(j));
  }

  lemma NoFlag(j: bv4)
    ensures !HasFlag(0, j)
  {
  }

  lemma FlagPlaceInjective(i: nat, j: nat)
    requires i < 16 && j < 16
    ensures FlagPlace(i) == FlagPlace(j) <==> i == j
  {
    assert FlagPlace(i) as nat == i && FlagPlace(j) as nat == j;
  }

  lemma NoFlags()
    ensures FlagSet(0) == {}
  {
    forall i: nat | i < 16 ensures !Flagged(0, i) { NoFlag(FlagPlace(i)); }
  }

  lemma RaisingAt(flags: bv16, i: nat, j: nat)
    requires i < 16 && j < 16
    ensures Flagged(flags | Flag(FlagPlace(i)), j) <==> i == j || Flagged(flags, j)
  {
    hide HasFlag;
    hide Flag;
    hide FlagPlace;
    FlagMeets(flags, FlagPlace(i), FlagPlace(j));
    FlagPlaceInjective(i, j);
  }

  lemma RaisingOne(flags: bv16, i: nat)
    requires i < 16
    ensures FlagSet(flags | Flag(FlagPlace(i))) == FlagSet(flags) + {i as int}
  {
    hide HasFlag;
    hide Flag;
    hide FlagPlace;
    hide Flagged;
    forall j: nat | j < 16
      ensures Flagged(flags | Flag(FlagPlace(i)), j) <==> i == j || Flagged(flags, j)
    {
      RaisingAt(flags, i, j);
    }
  }

  // ---- The packed vector ----------------------------------------------------------

  /** The snapshots of the first `n` positions, untracked ones left out. */
  function Pack(tracked: seq<Option<u64>>, n: nat): (packed: seq<u64>)
    requires n <= |tracked|
  {
    if n == 0 then []
    else Pack(tracked, n - 1) + if tracked[n - 1].Some? then [tracked[n - 1].value] else []
  }

  /** The positions the bitmap remembers of the first `n`. */
  ghost function Marked(tracked: seq<Option<u64>>, n: nat): set<int>
    requires n <= |tracked|
  {
    set i | 0 <= i < n && i < 256 && tracked[i].Some?
  }

  lemma MarkedStep(tracked: seq<Option<u64>>, n: nat)
    requires n < |tracked|
    ensures Marked(tracked, n + 1) == Marked(tracked, n) + if tracked[n].Some? && n < 256 then {n as int} else {}
    ensures Pack(tracked, n + 1) == Pack(tracked, n) + if tracked[n].Some? then [tracked[n].value] else []
  {
  }

  lemma NothingMarked(tracked: seq<Option<u64>>)
    ensures Marked(tracked, 0) == {} && Pack(tracked, 0) == []
  {
  }

  /** How many positions below `n` are in a set of positions. */
  ghost function Rank(positions: set<int>, n: nat): nat {
    |set i | 0 <= i < n && i in positions|
  }

  lemma RankStep(positions: set<int>, n: nat)
    ensures Rank(positions, n + 1) == Rank(positions, n) + if n in positions then 1 else 0
  {
    var below := set i | 0 <= i < n && i in positions;
    var upTo := set i | 0 <= i < n + 1 && i in positions;
    assert upTo == if n in positions then below + {n as int} else below;
  }

  /** Below 256 the packed vector grows exactly with the set bits. */
  lemma {:induction false} PackRank(tracked: seq<Option<u64>>, n: nat)
    requires n <= |tracked| && n <= 256
    ensures |Pack(tracked, n)| == Rank(Marked(tracked, |tracked|), n)
  {
    if n > 0 {
      PackRank(tracked, n - 1);
      RankStep(Marked(tracked, |tracked|), n - 1);
    }
  }

  lemma {:induction false} PackExtends(tracked: seq<Option<u64>>, i: nat, n: nat)
    requires i < n <= |tracked|
    ensures |Pack(tracked, i)| <= |Pack(tracked, n)|
    ensures tracked[i].Some? ==>
              |Pack(tracked, i)| < |Pack(tracked, n)| && Pack(tracked, n)[|Pack(tracked, i)|] == tracked[i].value
  {
    if i + 1 < n {
      PackExtends(tracked, i, n - 1);
    }
  }

  /** Alignment: a set index's snapshot sits at its rank among the set indices, although
      positions from 256 on are pushed too without ever setting a bit. */
  lemma PackAligned(tracked: seq<Option<u64>>, i: nat)
    requires i < |tracked| && i in Marked(tracked, |tracked|)
    ensures var rank := Rank(Marked(tracked, |tracked|), i);
            var packed := Pack(tracked, |tracked|);
            rank < |packed| && packed[rank] == tracked[i].value
  {
    PackRank(tracked, i);
    PackExtends(tracked, i, |tracked|);
  }
}
