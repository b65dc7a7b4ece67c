/**
 * Deck generation: a Fisher-Yates shuffle, the paired card set built from a
 * shuffled icon catalog, and the grid column class for a deck size.
 *
 * `Math.random()` is replaced by an injected sequence of draws, each a real
 * number in [0, 1); the icon catalog is a sequence of icon names.
 */
module GameUtils {
  import opened Strings
  import opened Types

  // ---------------------------------------------------------------------------
  // Sequences: permutations, distinctness, pointwise maps

  predicate Distinct<T(==)>(s: seq<T>) {
    forall i, j :: 0 <= i < j < |s| ==> s[i] != s[j]
  }

  function MapSeq<A, B>(f: A -> B, s: seq<A>): (r: seq<B>)
    ensures |r| == |s|
  {
    seq(|s|, i requires 0 <= i < |s| => f(s[i]))
  }

  /** Two equal entries at different positions make a count of at least two. */
  lemma DuplicateCountsTwice<T>(s: seq<T>, i: nat, j: nat)
    requires i < j < |s| && s[i] == s[j]
    ensures multiset(s)[s[i]] >= 2
  {
    assert s == s[..j] + s[j..];
    assert s[i] in multiset(s[..j]);
    assert s[j] in multiset(s[j..]);
    assert multiset(s) == multiset(s[..j]) + multiset(s[j..]);
  }

  /** An entry of a duplicate-free sequence occurs once. */
  lemma {:induction false} DistinctCountsOnce<T>(s: seq<T>, x: T)
    requires Distinct(s)
    ensures multiset(s)[x] <= 1
  {
    if s != [] {
      assert s == [s[0]] + s[1..];
      assert Distinct(s[1..]) by {
        forall i, j | 0 <= i < j < |s[1..]| ensures s[1..][i] != s[1..][j] {
          assert s[1..][i] == s[i + 1] && s[1..][j] == s[j + 1];
        }
      }
      DistinctCountsOnce(s[1..], x);
      if s[0] == x {
        assert x !in s[1..] by {
          forall k | 0 <= k < |s[1..]| ensures s[1..][k] != x {
            assert s[1..][k] == s[k + 1];
          }
        }
      }
    }
  }

  /** A permutation of a duplicate-free sequence is duplicate-free. */
  lemma DistinctPermutation<T>(s: seq<T>, t: seq<T>)
    requires Distinct(s) && multiset(s) == multiset(t)
    ensures Distinct(t)
  {
    forall i, j | 0 <= i < j < |t| ensures t[i] != t[j] {
      if t[i] == t[j] {
        DuplicateCountsTwice(t, i, j);
        DistinctCountsOnce(s, t[i]);
        assert false;
      }
    }
  }

  // ---------------------------------------------------------------------------
  // shuffleArray (game-utils.ts:7-14)

  /** Every draw is a value `Math.random()` can return. */
  predicate UnitRolls(rolls: seq<real>) {
    forall k :: 0 <= k < |rolls| ==> 0.0 <= rolls[k] < 1.0
  }

  /** The number of draws `shuffleArray` makes on an array of length `n`. */
  function Draws(n: nat): nat {
    if n > 0 then n - 1 else 0
  }

  /** Enough valid draws to shuffle an array of length `n`. */
  predicate RollsFor(n: nat, rolls: seq<real>) {
    UnitRolls(rolls) && |rolls| >= Draws(n)
  }

  /** `Math.floor(u * (i + 1))`: the index swapped with position `i`. */
  function SwapIndex(u: real, i: nat): (j: nat)
    requires 0.0 <= u < 1.0
    ensures j <= i
  {
    var bound := (i + 1) as real;
    assert 0.0 <= u * bound < bound by {
      assert u * bound <= u * bound + (1.0 - u) * bound;
    }
    (u * bound).Floor
  }

  function SwapAt<T>(s: seq<T>, i: nat, j: nat): (r: seq<T>)
    requires i < |s| && j < |s|
    ensures |r| == |s|
  {
    s[i := s[j]][j := s[i]]
  }

  /**
   * The array after the first `k` iterations of the descending loop: the
   * iteration that handles position `i` consumes draw number `|s| - 1 - i`.
   */
  function ShuffleSteps<T>(s: seq<T>, rolls: seq<real>, k: nat): (r: seq<T>)
    requires k <= Draws(|s|) && k <= |rolls| && UnitRolls(rolls)
    ensures |r| == |s|
    decreases k
  {
    if k == 0 then s
    else
      var i := |s| - k;
      SwapAt(ShuffleSteps(s, rolls, k - 1), i, SwapIndex(rolls[k - 1], i))
  }

  /** What `shuffleArray` returns for the draws `rolls`. */
  function Shuffled<T>(s: seq<T>, rolls: seq<real>): (r: seq<T>)
    requires RollsFor(|s|, rolls)
  {
    ShuffleSteps(s, rolls, Draws(|s|))
  }

  lemma SwapPermutes<T>(s: seq<T>, i: nat, j: nat)
    requires i < |s| && j < |s|
    ensures multiset(SwapAt(s, i, j)) == multiset(s)
  {
    var t := s[i := s[j]];
    assert multiset(t) == multiset(s) - multiset{s[i]} + multiset{s[j]};
    assert multiset(t[j := s[i]]) == multiset(t) - multiset{t[j]} + multiset{s[i]};
  }

  lemma {:induction false} ShuffleStepsPermute<T>(s: seq<T>, rolls: seq<real>, k: nat)
    requires k <= Draws(|s|) && k <= |rolls| && UnitRolls(rolls)
    ensures multiset(ShuffleSteps(s, rolls, k)) == multiset(s)
    decreases k
  {
    if k > 0 {
      var i := |s| - k;
      var j := SwapIndex(rolls[k - 1], i);
      var prev := ShuffleSteps(s, rolls, k - 1);
      assert ShuffleSteps(s, rolls, k) == SwapAt(prev, i, j);
      ShuffleStepsPermute(s, rolls, k - 1);
      SwapPermutes(prev, i, j);
    }
  }

  /** The shuffle returns a permutation of its input. */
  lemma ShuffledPermutes<T>(s: seq<T>, rolls: seq<real>)
    requires RollsFor(|s|, rolls)
    ensures |Shuffled(s, rolls)| == |s|
    ensures multiset(Shuffled(s, rolls)) == multiset(s)
  {
    ShuffleStepsPermute(s, rolls, Draws(|s|));
  }

  /** Shuffling moves entries without looking at them, so it commutes with a pointwise map. */
  lemma {:induction false} ShuffleStepsCommuteWithMap<A, B>(f: A -> B, s: seq<A>, rolls: seq<real>, k: nat)
    requires k <= Draws(|s|) && k <= |rolls| && UnitRolls(rolls)
    ensures MapSeq(f, ShuffleSteps(s, rolls, k)) == ShuffleSteps(MapSeq(f, s), rolls, k)
    decreases k
  {
    if k > 0 {
      var i := |s| - k;
      var j := SwapIndex(rolls[k - 1], i);
      var prev := ShuffleSteps(s, rolls, k - 1);
      var mapped := MapSeq(f, s);
      assert ShuffleSteps(s, rolls, k) == SwapAt(prev, i, j);
      assert ShuffleSteps(mapped, rolls, k) == SwapAt(ShuffleSteps(mapped, rolls, k - 1), i, j);
      ShuffleStepsCommuteWithMap(f, s, rolls, k - 1);
      MapCommutesWithSwap(f, prev, i, j);
    }
  }

  lemma MapCommutesWithSwap<A, B>(f: A -> B, s: seq<A>, i: nat, j: nat)
    requires i < |s| && j < |s|
    ensures MapSeq(f, SwapAt(s, i, j)) == SwapAt(MapSeq(f, s), i, j)
  {
  }

  lemma ShuffledCommutesWithMap<A, B>(f: A -> B, s: seq<A>, rolls: seq<real>)
    requires RollsFor(|s|, rolls)
    ensures MapSeq(f, Shuffled(s, rolls)) == Shuffled(MapSeq(f, s), rolls)
  {
    ShuffleStepsCommuteWithMap(f, s, rolls, Draws(|s|));
  }

  /**
   * `shuffleArray`: copy the input into a fresh array, then swap each position
   * `i` from the last down to 1 with a drawn position `j` in `[0, i]`.
   */
  method ShuffleArray<T>(input: seq<T>, rolls: seq<real>) returns (r: seq<T>)
    requires RollsFor(|input|, rolls)
    ensures r == Shuffled(input, rolls)
    ensures multiset(r) == multiset(input)
  {
    var n := |input|;
    var a := new T[n](k requires 0 <= k < n => input[k]);
    var i := n - 1;
    while i > 0
      invariant if n == 0 then i == -1 else 0 <= i < n
      invariant a[..] == ShuffleSteps(input, rolls, n - 1 - i)
    {
      var j := SwapIndex(rolls[n - 1 - i], i);
      a[i], a[j] := a[j], a[i];
      i := i - 1;
    }
    r := a[..];
    ShuffledPermutes(input, rolls);
  }

  // ---------------------------------------------------------------------------
  // generateCardSet (game-utils.ts:16-48)

  /**
   * The end index `Array.prototype.slice(0, end)` uses on an array of length
   * `len`: a negative end counts back from the end.
   */
  function SliceEnd(len: nat, end: int): (k: nat)
    ensures k <= len
  {
    if end < 0 then (if len + end > 0 then len + end else 0)
    else if end < len then end else len
  }

  /** `pair-${k}` */
  function PairId(k: nat): string {
    "pair-" + NatToString(k)
  }

  /** `pair-${k}-a` for the first card of pair `k`, `pair-${k}-b` for the second. */
  function CardId(k: nat, second: bool): string {
    PairId(k) + (if second then "-b" else "-a")
  }

  /** `iconInfo.name || \`unknown-${index}\`` */
  function IconNameAt(icons: seq<string>, index: nat): string
    requires index < |icons|
  {
    if icons[index] != "" then icons[index] else "unknown-" + NatToString(index)
  }

  /** The card at position `p` of the unshuffled deck: pair `p / 2`, its second card when `p` is odd. */
  function PairCard(icons: seq<string>, p: nat): Card
    requires p < 2 * |icons|
  {
    Card(CardId(p / 2, p % 2 == 1), PairId(p / 2), IconNameAt(icons, p / 2), false, false)
  }

  /** The cards pushed by the `forEach`, two per selected icon, in order. */
  function PairedCards(icons: seq<string>): (r: seq<Card>)
    ensures |r| == 2 * |icons|
  {
    seq(2 * |icons|, p requires 0 <= p < 2 * |icons| => PairCard(icons, p))
  }

  /** `shuffleArray(gameIconsList).slice(0, numPairs)` */
  function SelectedIcons(numPairs: int, catalog: seq<string>, iconRolls: seq<real>): (r: seq<string>)
    requires RollsFor(|catalog|, iconRolls)
  {
    Shuffled(catalog, iconRolls)[..SliceEnd(|catalog|, numPairs)]
  }

  /** The draws `generateCardSet` needs: one set per shuffle. */
  predicate CardSetRolls(numPairs: int, catalog: seq<string>, iconRolls: seq<real>, deckRolls: seq<real>) {
    RollsFor(|catalog|, iconRolls) && RollsFor(2 * SliceEnd(|catalog|, numPairs), deckRolls)
  }

  lemma HalvesOfPair(index: nat)
    ensures (2 * index) / 2 == index && (2 * index) % 2 == 0
    ensures (2 * index + 1) / 2 == index && (2 * index + 1) % 2 == 1
  {
  }

  /** The two cards the `forEach` pushes for the icon at `index`. */
  lemma PairedCardsGrow(icons: seq<string>, index: nat)
    requires index < |icons|
    ensures PairedCards(icons)[..2 * index + 2] == PairedCards(icons)[..2 * index] +
      [Card(PairId(index) + "-a", PairId(index), IconNameAt(icons, index), false, false),
       Card(PairId(index) + "-b", PairId(index), IconNameAt(icons, index), false, false)]
  {
    var u := PairedCards(icons);
    HalvesOfPair(index);
    var first := Card(PairId(index) + "-a", PairId(index), IconNameAt(icons, index), false, false);
    var second := Card(PairId(index) + "-b", PairId(index), IconNameAt(icons, index), false, false);
    assert u[2 * index] == PairCard(icons, 2 * index) == first;
    assert u[2 * index + 1] == PairCard(icons, 2 * index + 1) == second;
    assert u[..2 * index + 2] == u[..2 * index] + [u[2 * index], u[2 * index + 1]];
  }

  /** What `generateCardSet(numPairs)` returns for the given catalog and draws. */
  function CardSet(numPairs: int, catalog: seq<string>, iconRolls: seq<real>, deckRolls: seq<real>): seq<Card>
    requires CardSetRolls(numPairs, catalog, iconRolls, deckRolls)
  {
    Shuffled(PairedCards(SelectedIcons(numPairs, catalog, iconRolls)), deckRolls)
  }

  /** The `forEach` of `generateCardSet`: push two cards per selected icon. */
  method PushCardPairs(selectedIcons: seq<string>) returns (cards: seq<Card>)
    ensures cards == PairedCards(selectedIcons)
  {
    cards := [];
    for index := 0 to |selectedIcons|
      invariant cards == PairedCards(selectedIcons)[..2 * index]
    {
      var pairId := "pair-" + NatToString(index);
      var iconName := if selectedIcons[index] != "" then selectedIcons[index] else "unknown-" + NatToString(index);
      PairedCardsGrow(selectedIcons, index);
      cards := cards + [Card(pairId + "-a", pairId, iconName, false, false)];
      cards := cards + [Card(pairId + "-b", pairId, iconName, false, false)];
    }
  }

  /**
   * `generateCardSet`: shuffle the catalog, keep the first `numPairs` icons,
   * push two cards per icon, and shuffle the cards.
   */
  method GenerateCardSet(numPairs: int, catalog: seq<string>, iconRolls: seq<real>, deckRolls: seq<real>)
    returns (cards: seq<Card>)
    requires CardSetRolls(numPairs, catalog, iconRolls, deckRolls)
    ensures cards == CardSet(numPairs, catalog, iconRolls, deckRolls)
  {
    var shuffledIcons := ShuffleArray(catalog, iconRolls);
    var selectedIcons := shuffledIcons[..SliceEnd(|shuffledIcons|, numPairs)];
    var pairs := PushCardPairs(selectedIcons);
    cards := ShuffleArray(pairs, deckRolls);
  }

  // ---------------------------------------------------------------------------
  // Properties of the generated deck

  lemma PairIdInjective(a: nat, b: nat)
    requires PairId(a) == PairId(b)
    ensures a == b
  {
    SameFrameSameMiddle("pair-", NatToString(a), NatToString(b), "");
    NatToStringInjective(a, b);
  }

  lemma CardIdInjective(a: nat, sa: bool, b: nat, sb: bool)
    requires CardId(a, sa) == CardId(b, sb)
    ensures a == b && sa == sb
  {
    var ida, idb := CardId(a, sa), CardId(b, sb);
    assert ida[|ida| - 1] == (if sa then 'b' else 'a');
    assert idb[|idb| - 1] == (if sb then 'b' else 'a');
    var suffix := if sa then "-b" else "-a";
    SameFrameSameMiddle("pair-", NatToString(a), NatToString(b), suffix);
    NatToStringInjective(a, b);
  }

  /** The unshuffled deck has pairwise distinct card ids, hence distinct cards. */
  lemma PairedCardsDistinctIds(icons: seq<string>)
    ensures forall p, q :: 0 <= p < q < 2 * |icons| ==> PairedCards(icons)[p].id != PairedCards(icons)[q].id
    ensures Distinct(PairedCards(icons))
  {
    var u := PairedCards(icons);
    forall p, q | 0 <= p < q < |u| ensures u[p].id != u[q].id {
      if u[p].id == u[q].id {
        CardIdInjective(p / 2, p % 2 == 1, q / 2, q % 2 == 1);
        assert false;
      }
    }
  }

  /** Every card of the deck is one of the unshuffled cards. */
  lemma CardSetMembers(numPairs: int, catalog: seq<string>, iconRolls: seq<real>, deckRolls: seq<real>, i: nat)
    requires CardSetRolls(numPairs, catalog, iconRolls, deckRolls)
    requires i < |CardSet(numPairs, catalog, iconRolls, deckRolls)|
    ensures
      var icons := SelectedIcons(numPairs, catalog, iconRolls);
      exists p :: 0 <= p < 2 * |icons| && CardSet(numPairs, catalog, iconRolls, deckRolls)[i] == PairCard(icons, p)
  {
    var icons := SelectedIcons(numPairs, catalog, iconRolls);
    var u := PairedCards(icons);
    var deck := CardSet(numPairs, catalog, iconRolls, deckRolls);
    ShuffledPermutes(u, deckRolls);
    assert deck[i] in multiset(u);
    var p :| 0 <= p < |u| && u[p] == deck[i];
  }

  /** generateCardSet(n) has `2 * min(n, catalog size)` cards; no fallback card fills a short catalog. */
  lemma CardSetSize(numPairs: int, catalog: seq<string>, iconRolls: seq<real>, deckRolls: seq<real>)
    requires CardSetRolls(numPairs, catalog, iconRolls, deckRolls)
    ensures |CardSet(numPairs, catalog, iconRolls, deckRolls)| == 2 * SliceEnd(|catalog|, numPairs)
    ensures 0 <= numPairs <= |catalog| ==> |CardSet(numPairs, catalog, iconRolls, deckRolls)| == 2 * numPairs
    ensures numPairs > |catalog| ==> |CardSet(numPairs, catalog, iconRolls, deckRolls)| == 2 * |catalog|
  {
    var icons := SelectedIcons(numPairs, catalog, iconRolls);
    ShuffledPermutes(catalog, iconRolls);
    ShuffledPermutes(PairedCards(icons), deckRolls);
  }

  /** Every generated card is face down and unmatched, and its id is its pair id plus `-a` or `-b`. */
  lemma CardSetFaceDown(numPairs: int, catalog: seq<string>, iconRolls: seq<real>, deckRolls: seq<real>)
    requires CardSetRolls(numPairs, catalog, iconRolls, deckRolls)
    ensures forall c :: c in CardSet(numPairs, catalog, iconRolls, deckRolls) ==>
      !c.isFlipped && !c.isMatched && (c.id == c.pairId + "-a" || c.id == c.pairId + "-b")
  {
    var deck := CardSet(numPairs, catalog, iconRolls, deckRolls);
    forall c | c in deck
      ensures !c.isFlipped && !c.isMatched && (c.id == c.pairId + "-a" || c.id == c.pairId + "-b")
    {
      var i :| 0 <= i < |deck| && deck[i] == c;
      CardSetMembers(numPairs, catalog, iconRolls, deckRolls, i);
    }
  }

  /** All card ids of the deck are distinct. */
  lemma CardSetUniqueIds(numPairs: int, catalog: seq<string>, iconRolls: seq<real>, deckRolls: seq<real>)
    requires CardSetRolls(numPairs, catalog, iconRolls, deckRolls)
    ensures var deck := CardSet(numPairs, catalog, iconRolls, deckRolls);
      forall i, j :: 0 <= i < j < |deck| ==> deck[i].id != deck[j].id
  {
    var icons := SelectedIcons(numPairs, catalog, iconRolls);
    var u := PairedCards(icons);
    var deck := CardSet(numPairs, catalog, iconRolls, deckRolls);
    PairedCardsDistinctIds(icons);
    ShuffledPermutes(u, deckRolls);
    DistinctPermutation(u, deck);
    forall i, j | 0 <= i < j < |deck| ensures deck[i].id != deck[j].id {
      CardSetMembers(numPairs, catalog, iconRolls, deckRolls, i);
      CardSetMembers(numPairs, catalog, iconRolls, deckRolls, j);
      var p :| 0 <= p < |u| && deck[i] == PairCard(icons, p);
      var q :| 0 <= q < |u| && deck[j] == PairCard(icons, q);
      assert u[p] == deck[i] && u[q] == deck[j];
      assert p != q;
    }
  }

  function PairIdOf(c: Card): string {
    c.pairId
  }

  function PairIdSeq(m: nat): (r: seq<string>)
    ensures |r| == 2 * m
  {
    seq(2 * m, p requires 0 <= p < 2 * m => PairId(p / 2))
  }

  lemma {:induction false} PairIdSeqCounts(m: nat, k: nat)
    ensures multiset(PairIdSeq(m))[PairId(k)] == if k < m then 2 else 0
    decreases m
  {
    if m > 0 {
      PairIdSeqCounts(m - 1, k);
      assert PairIdSeq(m) == PairIdSeq(m - 1) + [PairId(m - 1), PairId(m - 1)];
      if k != m - 1 && PairId(k) == PairId(m - 1) {
        PairIdInjective(k, m - 1);
      }
    }
  }

  /**
   * Every pair id of the deck is `pair-k` for some selected icon `k`, and the
   * pair id of each of the `m` selected icons occurs on exactly two cards.
   */
  lemma CardSetPairsTwice(numPairs: int, catalog: seq<string>, iconRolls: seq<real>, deckRolls: seq<real>)
    requires CardSetRolls(numPairs, catalog, iconRolls, deckRolls)
    ensures var deck := CardSet(numPairs, catalog, iconRolls, deckRolls);
      var m := SliceEnd(|catalog|, numPairs);
      (forall k: nat :: multiset(MapSeq(PairIdOf, deck))[PairId(k)] == if k < m then 2 else 0) &&
      (forall i :: 0 <= i < |deck| ==> exists k :: 0 <= k < m && deck[i].pairId == PairId(k))
  {
    var icons := SelectedIcons(numPairs, catalog, iconRolls);
    var u := PairedCards(icons);
    var deck := CardSet(numPairs, catalog, iconRolls, deckRolls);
    var m := SliceEnd(|catalog|, numPairs);
    ShuffledPermutes(catalog, iconRolls);
    assert |icons| == m;
    assert MapSeq(PairIdOf, u) == PairIdSeq(m);
    ShuffledCommutesWithMap(PairIdOf, u, deckRolls);
    ShuffledPermutes(MapSeq(PairIdOf, u), deckRolls);
    forall k: nat ensures multiset(MapSeq(PairIdOf, deck))[PairId(k)] == if k < m then 2 else 0 {
      PairIdSeqCounts(m, k);
    }
    forall i | 0 <= i < |deck| ensures exists k :: 0 <= k < m && deck[i].pairId == PairId(k) {
      CardSetMembers(numPairs, catalog, iconRolls, deckRolls, i);
    }
  }

  /** The two cards of a pair show the same icon. */
  lemma CardSetPairsShareIcon(numPairs: int, catalog: seq<string>, iconRolls: seq<real>, deckRolls: seq<real>)
    requires CardSetRolls(numPairs, catalog, iconRolls, deckRolls)
    ensures var deck := CardSet(numPairs, catalog, iconRolls, deckRolls);
      forall i, j :: 0 <= i < |deck| && 0 <= j < |deck| && deck[i].pairId == deck[j].pairId ==>
        deck[i].iconName == deck[j].iconName
  {
    var icons := SelectedIcons(numPairs, catalog, iconRolls);
    var deck := CardSet(numPairs, catalog, iconRolls, deckRolls);
    forall i, j | 0 <= i < |deck| && 0 <= j < |deck| && deck[i].pairId == deck[j].pairId
      ensures deck[i].iconName == deck[j].iconName
    {
      CardSetMembers(numPairs, catalog, iconRolls, deckRolls, i);
      CardSetMembers(numPairs, catalog, iconRolls, deckRolls, j);
      var p :| 0 <= p < 2 * |icons| && deck[i] == PairCard(icons, p);
      var q :| 0 <= q < 2 * |icons| && deck[j] == PairCard(icons, q);
      PairIdInjective(p / 2, q / 2);
    }
  }

  /**
   * With a catalog of distinct, non-empty names, cards of different pairs show
   * different icons: the selected icons are a prefix of a permutation of the catalog.
   */
  lemma CardSetDistinctIcons(numPairs: int, catalog: seq<string>, iconRolls: seq<real>, deckRolls: seq<real>)
    requires CardSetRolls(numPairs, catalog, iconRolls, deckRolls)
    requires Distinct(catalog) && forall k :: 0 <= k < |catalog| ==> catalog[k] != ""
    ensures var deck := CardSet(numPairs, catalog, iconRolls, deckRolls);
      forall i, j :: 0 <= i < |deck| && 0 <= j < |deck| && deck[i].pairId != deck[j].pairId ==>
        deck[i].iconName != deck[j].iconName
  {
    var shuffled := Shuffled(catalog, iconRolls);
    var icons := SelectedIcons(numPairs, catalog, iconRolls);
    var deck := CardSet(numPairs, catalog, iconRolls, deckRolls);
    ShuffledPermutes(catalog, iconRolls);
    DistinctPermutation(catalog, shuffled);
    forall k | 0 <= k < |icons| ensures icons[k] != "" {
      assert icons[k] == shuffled[k];
      assert shuffled[k] in multiset(catalog);
    }
    forall i, j | 0 <= i < |deck| && 0 <= j < |deck| && deck[i].pairId != deck[j].pairId
      ensures deck[i].iconName != deck[j].iconName
    {
      CardSetMembers(numPairs, catalog, iconRolls, deckRolls, i);
      CardSetMembers(numPairs, catalog, iconRolls, deckRolls, j);
      var p :| 0 <= p < 2 * |icons| && deck[i] == PairCard(icons, p);
      var q :| 0 <= q < 2 * |icons| && deck[j] == PairCard(icons, q);
      assert p / 2 != q / 2;
      assert icons[p / 2] == shuffled[p / 2] && icons[q / 2] == shuffled[q / 2];
    }
  }

  // ---------------------------------------------------------------------------
  // getGridColsClass (game-utils.ts:50-66)

  /** `getGridColsClass`: the Tailwind column class for a deck of `numCards` cards. */
  function GetGridColsClass(numCards: int): string {
    if numCards <= 8 then "grid-cols-4"
    else if numCards <= 12 then "grid-cols-6"
    else if numCards <= 16 then "grid-cols-8"
    else if numCards <= 20 then "grid-cols-10"
    else if numCards <= 24 then "grid-cols-8"
    else if numCards <= 30 then "grid-cols-10"
    else if numCards <= 36 then "grid-cols-9"
    else if numCards <= 42 then "grid-cols-7"
    else if numCards <= 48 then "grid-cols-12"
    else if numCards <= 50 then "grid-cols-10"
    else "grid-cols-10"
  }

  /** One supported deck size and the columns-by-rows grid it is laid out in. */
  datatype GridLayout = GridLayout(numCards: nat, cols: nat, rows: nat)

  /** The layouts documented beside getGridColsClass, one per pair option. */
  const Layouts: seq<GridLayout> := [
    GridLayout(8, 4, 2), GridLayout(12, 6, 2), GridLayout(16, 8, 2), GridLayout(20, 10, 2),
    GridLayout(24, 8, 3), GridLayout(30, 10, 3), GridLayout(36, 9, 4), GridLayout(42, 7, 6),
    GridLayout(48, 12, 4), GridLayout(50, 10, 5)]

  function ColsClass(cols: nat): string {
    "grid-cols-" + NatToString(cols)
  }

  /**
   * The column class of the first layout from position `k` on that is large
   * enough for `numCards`, and ten columns beyond the last.
   */
  function LayoutClass(layouts: seq<GridLayout>, k: nat, numCards: int): string
    decreases |layouts| - k
  {
    if k >= |layouts| then ColsClass(10)
    else if numCards <= layouts[k].numCards then ColsClass(layouts[k].cols)
    else LayoutClass(layouts, k + 1, numCards)
  }

  lemma ColsClassTexts()
    ensures ColsClass(4) == "grid-cols-4" && ColsClass(6) == "grid-cols-6" && ColsClass(7) == "grid-cols-7"
    ensures ColsClass(8) == "grid-cols-8" && ColsClass(9) == "grid-cols-9"
    ensures ColsClass(10) == "grid-cols-10" && ColsClass(12) == "grid-cols-12"
  {
    assert NatToString(10) == NatToString(1) + [DigitChar(0)];
    assert NatToString(12) == NatToString(1) + [DigitChar(2)];
  }

  /**
   * getGridColsClass is total and agrees with the layout table for every card
   * count: at or below a documented deck size it returns that layout's
   * columns, and above 50 it returns ten columns. (The table's rows are the
   * documented columns-by-rows grids, each exactly as large as its deck.)
   */
  lemma GridColsFollowLayouts(numCards: int)
    ensures GetGridColsClass(numCards) == LayoutClass(Layouts, 0, numCards)
    ensures numCards > 50 ==> GetGridColsClass(numCards) == "grid-cols-10"
  {
    ColsClassTexts();
    var t := Layouts;
    assert LayoutClass(t, 9, numCards) == if numCards <= 50 then ColsClass(10) else LayoutClass(t, 10, numCards);
    assert LayoutClass(t, 8, numCards) == if numCards <= 48 then ColsClass(12) else LayoutClass(t, 9, numCards);
    assert LayoutClass(t, 7, numCards) == if numCards <= 42 then ColsClass(7) else LayoutClass(t, 8, numCards);
    assert LayoutClass(t, 6, numCards) == if numCards <= 36 then ColsClass(9) else LayoutClass(t, 7, numCards);
    assert LayoutClass(t, 5, numCards) == if numCards <= 30 then ColsClass(10) else LayoutClass(t, 6, numCards);
    assert LayoutClass(t, 4, numCards) == if numCards <= 24 then ColsClass(8) else LayoutClass(t, 5, numCards);
    assert LayoutClass(t, 3, numCards) == if numCards <= 20 then ColsClass(10) else LayoutClass(t, 4, numCards);
    assert LayoutClass(t, 2, numCards) == if numCards <= 16 then ColsClass(8) else LayoutClass(t, 3, numCards);
    assert LayoutClass(t, 1, numCards) == if numCards <= 12 then ColsClass(6) else LayoutClass(t, 2, numCards);
  }
}
