/** The initial state and its two decks: `createDeck`, `createThreatDeck`,
    the difficulty table and `getInitialState`. The random choices are
    parameters: a shuffle is given by the exchanges it performs, the
    initial threats by an `Rng`, and the random suffix of each starting
    card's id by `tags`. */
module Setup {
  import opened Prelude
  import opened Constants
  import opened GameTypes
  import Draw = EndTurn

  // ---------------------------------------------------------------------------
  // Shuffling

  /** Exchanges the cards at `i` and `j`; a position outside the sequence leaves it as it is. */
  function Swap<T>(s: seq<T>, i: nat, j: nat): (r: seq<T>)
    ensures |r| == |s| && multiset(r) == multiset(s)
    ensures forall k :: 0 <= k < |s| ==> r[k] == s[Swapped(|s|, i, j, k)]
  {
    if i < |s| && j < |s| then
      var r := s[i := s[j]][j := s[i]];
      MultisetSwap(s, i, j);
      r
    else s
  }

  /** Where the card now at `k` came from. */
  function Swapped(n: nat, i: nat, j: nat, k: nat): nat
  {
    if !(i < n && j < n) then k else if k == j then i else if k == i then j else k
  }

  lemma MultisetSwap<T>(s: seq<T>, i: nat, j: nat)
    requires i < |s| && j < |s|
    ensures multiset(s[i := s[j]][j := s[i]]) == multiset(s)
  {
    var t := s[i := s[j]];
    assert multiset(t) == multiset(s) - multiset{s[i]} + multiset{s[j]};
    assert multiset(t[j := s[i]]) == multiset(t) - multiset{t[j]} + multiset{s[i]};
  }

  /** `sort(() => Math.random() - 0.5)`: a rearrangement, given by the exchanges it performs. */
  function Shuffle<T>(s: seq<T>, swaps: seq<(nat, nat)>): (r: seq<T>)
    ensures |r| == |s| && multiset(r) == multiset(s)
    decreases |swaps|
  {
    if swaps == [] then s else Shuffle(Swap(s, swaps[0].0, swaps[0].1), swaps[1..])
  }

  /** No two cards share an id. */
  predicate DistinctIds(cards: seq<Card>)
  {
    forall a, b :: 0 <= a < |cards| && 0 <= b < |cards| && a != b ==> cards[a].id != cards[b].id
  }

  /** Shuffling keeps ids distinct. */
  lemma {:induction false} ShuffleKeepsDistinctIds(s: seq<Card>, swaps: seq<(nat, nat)>)
    requires DistinctIds(s)
    ensures DistinctIds(Shuffle(s, swaps))
    decreases |swaps|
  {
    if swaps != [] {
      var t := Swap(s, swaps[0].0, swaps[0].1);
      forall a, b | 0 <= a < |t| && 0 <= b < |t| && a != b
        ensures t[a].id != t[b].id
      {
        var n := |s|;
        assert Swapped(n, swaps[0].0, swaps[0].1, a) != Swapped(n, swaps[0].0, swaps[0].1, b);
      }
      ShuffleKeepsDistinctIds(t, swaps[1..]);
    }
  }

  function OfType(t: CardType): Card -> bool
  {
    (c: Card) => c.cardType == t
  }

  /** Shuffling keeps the number of cards of each type. */
  lemma ShuffleKeepsCounts(s: seq<Card>, swaps: seq<(nat, nat)>, t: CardType)
    ensures |Filter(Shuffle(s, swaps), OfType(t))| == |Filter(s, OfType(t))|
  {
    FilterPermutation(Shuffle(s, swaps), s, OfType(t));
    assert |multiset(Filter(Shuffle(s, swaps), OfType(t)))| == |multiset(Filter(s, OfType(t)))|;
  }

  /** A run of cards all of type `t` holds `|cards|` cards of type `t` and none of another. */
  lemma CountRun(cards: seq<Card>, t: CardType, u: CardType)
    requires forall k :: 0 <= k < |cards| ==> cards[k].cardType == t
    ensures |Filter(cards, OfType(u))| == if u == t then |cards| else 0
  {
    if u == t {
      FilterAllKept(cards, OfType(u));
    } else {
      FilterNoneKept(cards, OfType(u));
    }
  }

  /** Ids of the form `prefix` + numeral differ when the numbers differ or
      when the prefixes start differently. */
  lemma NumberedIdsDiffer(p: string, m: nat, q: string, n: nat)
    requires |p| > 0 && |q| > 0
    requires p == q ==> m != n
    requires p != q ==> p[0] != q[0]
    ensures p + NatToString(m) != q + NatToString(n)
  {
    if p == q {
      PrefixedNumeralsDiffer(p, m, n);
    } else {
      assert (p + NatToString(m))[0] == p[0];
      assert (q + NatToString(n))[0] == q[0];
    }
  }

  // ---------------------------------------------------------------------------
  // The action deck

  /** The `CardSubType` string of each sub-type. */
  function SubTypeName(t: SubType): string
  {
    match t
    case Harci => "Harci"
    case Vedelmi => "Védelmi"
    case Kereskedelem => "Kereskedelem"
    case Gyogyitas => "Gyógyítás"
    case Diplomacia => "Diplomácia"
    case Lovas => "Lovas"
    case Szertartas => "Szertartás"
    case Strategia => "Stratégia"
  }

  /** Action card `i`: the sub-types come round in `ActionSubTypes` order. */
  function ActionCardAt(i: nat): Card
  {
    var t := ActionSubTypes[i % |ActionSubTypes|];
    Card("action-" + NatToString(i), SubTypeName(t) + " Kártya", ActionCard, Some(t), None, None, None, None)
  }

  function StormCardAt(i: nat): Card
  {
    Card("storm-" + NatToString(i), "Vihar", StormCard, None, None, None, None, None)
  }

  function BlessingCardAt(i: nat): Card
    requires i < |BlessingCards|
  {
    var b := BlessingCards[i];
    Card("blessing-" + NatToString(i), BlessingName(b), BlessingCard, None, None, None, None, Some(b))
  }

  const ActionCount: nat := 60

  /** The action deck before shuffling: 60 action cards, `stormCount` storms, one card per blessing. */
  function UnshuffledDeck(stormCount: nat): seq<Card>
  {
    seq(ActionCount, i requires 0 <= i => ActionCardAt(i)) + seq(stormCount, i requires 0 <= i => StormCardAt(i))
    + seq(|BlessingCards|, i requires 0 <= i < |BlessingCards| => BlessingCardAt(i))
  }

  /** `createDeck`. */
  function CreateDeck(stormCount: nat, swaps: seq<(nat, nat)>): seq<Card>
  {
    Shuffle(UnshuffledDeck(stormCount), swaps)
  }

  /** The card at position `k` of the unshuffled deck. */
  lemma UnshuffledAt(stormCount: nat, k: nat)
    requires k < |UnshuffledDeck(stormCount)|
    ensures |UnshuffledDeck(stormCount)| == 65 + stormCount
    ensures UnshuffledDeck(stormCount)[k] ==
              if k < 60 then ActionCardAt(k)
              else if k < 60 + stormCount then StormCardAt(k - 60)
              else BlessingCardAt(k - 60 - stormCount)
  {
    var actions, storms := seq(ActionCount, i requires 0 <= i => ActionCardAt(i)), seq(stormCount, i requires 0 <= i => StormCardAt(i));
    var blessings := seq(|BlessingCards|, i requires 0 <= i < |BlessingCards| => BlessingCardAt(i));
    assert UnshuffledDeck(stormCount) == (actions + storms) + blessings;
    if k < 60 {
      assert UnshuffledDeck(stormCount)[k] == (actions + storms)[k] == actions[k];
    } else if k < 60 + stormCount {
      assert UnshuffledDeck(stormCount)[k] == (actions + storms)[k] == storms[k - 60];
    } else {
      assert UnshuffledDeck(stormCount)[k] == blessings[k - 60 - stormCount];
    }
  }

  /** How many cards of type `t` the unshuffled deck holds. */
  lemma UnshuffledCount(stormCount: nat, t: CardType)
    ensures |Filter(UnshuffledDeck(stormCount), OfType(t))| ==
              match t
              case ActionCard => 60
              case StormCard => stormCount
              case BlessingCard => 5
              case _ => 0
  {
    var actions, storms := seq(ActionCount, i requires 0 <= i => ActionCardAt(i)), seq(stormCount, i requires 0 <= i => StormCardAt(i));
    var blessings := seq(|BlessingCards|, i requires 0 <= i < |BlessingCards| => BlessingCardAt(i));
    assert UnshuffledDeck(stormCount) == (actions + storms) + blessings;
    FilterConcat(actions + storms, blessings, OfType(t));
    FilterConcat(actions, storms, OfType(t));
    assert forall k | 0 <= k < |actions| :: actions[k] == ActionCardAt(k);
    CountRun(actions, ActionCard, t);
    assert forall k | 0 <= k < |storms| :: storms[k] == StormCardAt(k);
    CountRun(storms, StormCard, t);
    CountRun(blessings, BlessingCard, t);
  }

  lemma UnshuffledIds(stormCount: nat)
    ensures DistinctIds(UnshuffledDeck(stormCount))
  {
    var u := UnshuffledDeck(stormCount);
    forall a, b | 0 <= a < |u| && 0 <= b < |u| && a != b
      ensures u[a].id != u[b].id
    {
      UnshuffledAt(stormCount, a);
      UnshuffledAt(stormCount, b);
      var pa := if a < 60 then "action-" else if a < 60 + stormCount then "storm-" else "blessing-";
      var na := if a < 60 then a else if a < 60 + stormCount then a - 60 else a - 60 - stormCount;
      var pb := if b < 60 then "action-" else if b < 60 + stormCount then "storm-" else "blessing-";
      var nb := if b < 60 then b else if b < 60 + stormCount then b - 60 else b - 60 - stormCount;
      NumberedIdsDiffer(pa, na, pb, nb);
    }
  }

  /** What `createDeck(stormCount)` promises: a rearrangement of 60 action
      cards, `stormCount` storms and the five blessings, no two sharing an id. */
  ghost predicate ActionDeck(deck: seq<Card>, stormCount: nat)
  {
    && multiset(deck) == multiset(UnshuffledDeck(stormCount))
    && |deck| == 65 + stormCount
    && |Filter(deck, OfType(ActionCard))| == 60
    && |Filter(deck, OfType(StormCard))| == stormCount
    && |Filter(deck, OfType(BlessingCard))| == |BlessingCards|
    && |Filter(deck, OfType(ThreatCard))| == 0
    && DistinctIds(deck)
  }

  lemma DeckContents(stormCount: nat, swaps: seq<(nat, nat)>)
    ensures ActionDeck(CreateDeck(stormCount, swaps), stormCount)
  {
    var u := UnshuffledDeck(stormCount);
    UnshuffledAt(stormCount, 0);
    UnshuffledCount(stormCount, ActionCard);
    UnshuffledCount(stormCount, StormCard);
    UnshuffledCount(stormCount, BlessingCard);
    UnshuffledCount(stormCount, ThreatCard);
    ShuffleKeepsCounts(u, swaps, ActionCard);
    ShuffleKeepsCounts(u, swaps, StormCard);
    ShuffleKeepsCounts(u, swaps, BlessingCard);
    ShuffleKeepsCounts(u, swaps, ThreatCard);
    UnshuffledIds(stormCount);
    ShuffleKeepsDistinctIds(u, swaps);
  }

  /** Action card `action-i` has the `i mod 8`-th sub-type, wherever the shuffle puts it. */
  lemma ActionSubTypeCycle(stormCount: nat, swaps: seq<(nat, nat)>, c: Card)
    requires c in CreateDeck(stormCount, swaps) && c.cardType == ActionCard
    ensures exists i :: 0 <= i < 60 && c.id == "action-" + NatToString(i) && c.subType == Some(ActionSubTypes[i % 8])
  {
    var u := UnshuffledDeck(stormCount);
    assert c in multiset(u);
    var k :| 0 <= k < |u| && u[k] == c;
    UnshuffledAt(stormCount, k);
    assert k < 60;
  }

  // ---------------------------------------------------------------------------
  // The threat deck

  /** Threat card `i`: the target cities come round in registry order and the
      threat types in `ThreatTypes` order. */
  function ThreatCardAt(i: nat): Card
  {
    Card("threat-" + NatToString(i), "Fenyegetés", ThreatCard, None,
         Some(CityList[i % |CityList|]), Some(ThreatTypes[i % |ThreatTypes|]), None, None)
  }

  function CrisisCardAt(i: nat): Card
  {
    var c := CrisisCards[i % |CrisisCards|];
    Card("crisis-" + NatToString(i), CrisisName(c), CrisisCard, None, None, None, Some(c), None)
  }

  const ThreatCardCount: nat := 40

  /** One crisis card, two on `master`, three on `legendary`. */
  function CrisisCount(difficulty: string): (r: nat)
    ensures 1 <= r <= |CrisisCards|
    ensures r > 1 <==> difficulty == "master" || difficulty == "legendary"
  {
    if difficulty == "legendary" then 3 else if difficulty == "master" then 2 else 1
  }

  /** The threat deck before shuffling: 40 threats, then the crisis cards. */
  function UnshuffledThreatDeck(difficulty: string): seq<Card>
  {
    seq(ThreatCardCount, i requires 0 <= i => ThreatCardAt(i))
    + seq(CrisisCount(difficulty), i requires 0 <= i => CrisisCardAt(i))
  }

  /** `createThreatDeck`. */
  function CreateThreatDeck(difficulty: string, swaps: seq<(nat, nat)>): seq<Card>
  {
    Shuffle(UnshuffledThreatDeck(difficulty), swaps)
  }

  lemma UnshuffledThreatAt(difficulty: string, k: nat)
    requires k < |UnshuffledThreatDeck(difficulty)|
    ensures |UnshuffledThreatDeck(difficulty)| == 40 + CrisisCount(difficulty)
    ensures UnshuffledThreatDeck(difficulty)[k] ==
              if k < 40 then ThreatCardAt(k) else CrisisCardAt(k - 40)
  {
    var threats := seq(ThreatCardCount, i requires 0 <= i => ThreatCardAt(i));
    var crises := seq(CrisisCount(difficulty), i requires 0 <= i => CrisisCardAt(i));
    if k < 40 {
      assert UnshuffledThreatDeck(difficulty)[k] == threats[k];
    } else {
      assert UnshuffledThreatDeck(difficulty)[k] == crises[k - 40];
    }
  }

  lemma UnshuffledThreatCount(difficulty: string, t: CardType)
    ensures |Filter(UnshuffledThreatDeck(difficulty), OfType(t))| ==
              match t
              case ThreatCard => 40
              case CrisisCard => CrisisCount(difficulty)
              case _ => 0
  {
    var threats := seq(ThreatCardCount, i requires 0 <= i => ThreatCardAt(i));
    var crises := seq(CrisisCount(difficulty), i requires 0 <= i => CrisisCardAt(i));
    FilterConcat(threats, crises, OfType(t));
    assert forall k | 0 <= k < |threats| :: threats[k] == ThreatCardAt(k);
    CountRun(threats, ThreatCard, t);
    assert forall k | 0 <= k < |crises| :: crises[k] == CrisisCardAt(k);
    CountRun(crises, CrisisCard, t);
  }

  lemma UnshuffledThreatIds(difficulty: string)
    ensures DistinctIds(UnshuffledThreatDeck(difficulty))
  {
    var u := UnshuffledThreatDeck(difficulty);
    forall a, b | 0 <= a < |u| && 0 <= b < |u| && a != b
      ensures u[a].id != u[b].id
    {
      UnshuffledThreatAt(difficulty, a);
      UnshuffledThreatAt(difficulty, b);
      var pa, na := if a < 40 then "threat-" else "crisis-", if a < 40 then a else a - 40;
      var pb, nb := if b < 40 then "threat-" else "crisis-", if b < 40 then b else b - 40;
      NumberedIdsDiffer(pa, na, pb, nb);
    }
  }

  /** What `createThreatDeck(difficulty)` promises: a rearrangement of 40
      threat cards and the difficulty's crisis cards, no two sharing an id. */
  ghost predicate ThreatDeck(deck: seq<Card>, difficulty: string)
  {
    && multiset(deck) == multiset(UnshuffledThreatDeck(difficulty))
    && |deck| == 40 + CrisisCount(difficulty)
    && |Filter(deck, OfType(ThreatCard))| == 40
    && |Filter(deck, OfType(CrisisCard))| == CrisisCount(difficulty)
    && |Filter(deck, OfType(ActionCard))| == 0
    && |Filter(deck, OfType(StormCard))| == 0
    && |Filter(deck, OfType(BlessingCard))| == 0
    && DistinctIds(deck)
  }

  lemma ThreatDeckContents(difficulty: string, swaps: seq<(nat, nat)>)
    ensures ThreatDeck(CreateThreatDeck(difficulty, swaps), difficulty)
  {
    var u := UnshuffledThreatDeck(difficulty);
    UnshuffledThreatAt(difficulty, 0);
    UnshuffledThreatCount(difficulty, ThreatCard);
    UnshuffledThreatCount(difficulty, CrisisCard);
    UnshuffledThreatCount(difficulty, ActionCard);
    UnshuffledThreatCount(difficulty, StormCard);
    UnshuffledThreatCount(difficulty, BlessingCard);
    ShuffleKeepsCounts(u, swaps, ThreatCard);
    ShuffleKeepsCounts(u, swaps, CrisisCard);
    ShuffleKeepsCounts(u, swaps, ActionCard);
    ShuffleKeepsCounts(u, swaps, StormCard);
    ShuffleKeepsCounts(u, swaps, BlessingCard);
    UnshuffledThreatIds(difficulty);
    ShuffleKeepsDistinctIds(u, swaps);
  }

  /** Every threat card names a target city and a threat type, and a crisis
      card names its crisis, wherever the shuffle puts them. */
  lemma ThreatCardsComplete(difficulty: string, swaps: seq<(nat, nat)>, c: Card)
    requires c in CreateThreatDeck(difficulty, swaps)
    ensures c.cardType == ThreatCard || c.cardType == CrisisCard
    ensures c.cardType == ThreatCard ==> c.targetCity.Some? && c.threatType.Some?
    ensures c.cardType == CrisisCard ==> c.crisisType.Some? && c.name == CrisisName(c.crisisType.value)
  {
    var u := UnshuffledThreatDeck(difficulty);
    assert c in multiset(u);
    var k :| 0 <= k < |u| && u[k] == c;
    UnshuffledThreatAt(difficulty, k);
  }

  /** Threat card `threat-i` targets the `i mod 27`-th city with the
      `i mod 8`-th threat type, wherever the shuffle puts it. */
  lemma ThreatCardCycle(difficulty: string, swaps: seq<(nat, nat)>, c: Card)
    requires c in CreateThreatDeck(difficulty, swaps) && c.cardType == ThreatCard
    ensures exists i :: 0 <= i < 40 && c.id == "threat-" + NatToString(i)
              && c.targetCity == Some(CityList[i % |CityList|]) && c.threatType == Some(ThreatTypes[i % |ThreatTypes|])
  {
    var u := UnshuffledThreatDeck(difficulty);
    assert c in multiset(u);
    var k :| 0 <= k < |u| && u[k] == c;
    UnshuffledThreatAt(difficulty, k);
  }

  /** Every city is the target of some threat card in the deck. */
  lemma EveryCityThreatened(difficulty: string, swaps: seq<(nat, nat)>, city: CityName)
    ensures exists c :: c in CreateThreatDeck(difficulty, swaps) && c.cardType == ThreatCard && c.targetCity == Some(city)
  {
    var u := UnshuffledThreatDeck(difficulty);
    var k := CityIndex(city);
    EntryAtCityIndex(city);
    UnshuffledThreatAt(difficulty, k);
    ModSmall(k, |CityList|);
    var c := u[k];
    assert c.targetCity == Some(city);
    assert c in multiset(CreateThreatDeck(difficulty, swaps));
  }

  /** The position of a threat type among the keys of THREAT_DETAILS. */
  function ThreatTypeIndex(t: ThreatType): (k: nat)
    ensures k < |ThreatTypes| && ThreatTypes[k] == t
  {
    match t
    case RosszTermes => 0 case Rablobanda => 1 case Jarvany => 2 case Belviszaly => 3
    case NomadTamadas => 4 case RomaiIntrika => 5 case GermanFelkeles => 6 case PerzsaPortyazok => 7
  }

  /** Every threat type is on some threat card in the deck. */
  lemma EveryThreatTypeDealt(difficulty: string, swaps: seq<(nat, nat)>, t: ThreatType)
    ensures exists c :: c in CreateThreatDeck(difficulty, swaps) && c.cardType == ThreatCard && c.threatType == Some(t)
  {
    var u := UnshuffledThreatDeck(difficulty);
    var k := ThreatTypeIndex(t);
    UnshuffledThreatAt(difficulty, k);
    ModSmall(k, |ThreatTypes|);
    var c := u[k];
    assert c.threatType == Some(t);
    assert c in multiset(CreateThreatDeck(difficulty, swaps));
  }

  // ---------------------------------------------------------------------------
  // Difficulty

  /** What a difficulty sets: storm cards in the action deck and threats placed at the start. */
  datatype Setting = Setting(stormCards: nat, initialThreats: nat)

  /** The difficulty switch; an unknown name keeps the defaults. */
  function DifficultySetting(difficulty: string): Setting
  {
    match difficulty
    case "beginner" => Setting(2, 0)
    case "normal" => Setting(3, 2)
    case "master" => Setting(4, 4)
    case "legendary" => Setting(6, 8)
    case _ => Setting(2, 0)
  }

  /** The levels grow harder in order, and an unknown name plays like `beginner`. */
  lemma DifficultyOrdered(difficulty: string)
    ensures var levels := ["beginner", "normal", "master", "legendary"];
            forall i, j :: 0 <= i < j < |levels| ==>
              DifficultySetting(levels[i]).stormCards < DifficultySetting(levels[j]).stormCards
              && DifficultySetting(levels[i]).initialThreats < DifficultySetting(levels[j]).initialThreats
              && CrisisCount(levels[i]) <= CrisisCount(levels[j])
    ensures difficulty !in {"beginner", "normal", "master", "legendary"} ==>
              DifficultySetting(difficulty) == DifficultySetting("beginner")
  {
  }

  // ---------------------------------------------------------------------------
  // Starting hands

  /** `s.includes(part)`: `part` occurs in `s` at some position. */
  predicate Includes(s: string, part: string)
  {
    exists i: nat | i <= |s| :: OccursAt(s, part, i)
  }

  predicate OccursAt(s: string, part: string, i: nat)
  {
    i + |part| <= |s| && s[i..i + |part|] == part
  }

  /** An occurrence at position `i` is found. */
  lemma IncludesAt(s: string, part: string, i: nat)
    requires i + |part| <= |s| && s[i..i + |part|] == part
    ensures Includes(s, part)
  {
    assert OccursAt(s, part, i);
  }

  /** A part placed between two strings occurs in the result. */
  lemma IncludesWithin(before: string, part: string, after: string)
    ensures Includes(before + part + after, part)
  {
    var s := before + part + after;
    assert s[|before|..|before| + |part|] == part;
    assert OccursAt(s, part, |before|);
  }

  /** Every character of an occurring part is a character of `s`. */
  lemma IncludesChars(s: string, part: string, x: char)
    requires Includes(s, part) && x in part
    ensures x in s
  {
    var i: nat :| i <= |s| && OccursAt(s, part, i);
    var k :| 0 <= k < |part| && part[k] == x;
    assert s[i..i + |part|][k] == x;
  }

  /** `createStartingCard`'s sub-type: the first keyword the name contains, `Harci` when none. */
  function StartingSubType(name: string): SubType
  {
    if Includes(name, "Lovas") then Lovas
    else if Includes(name, "szertartás") then Szertartas
    else if Includes(name, "Kereskedelem") then Kereskedelem
    else if Includes(name, "Gyógyító") then Gyogyitas
    else if Includes(name, "Tanácsadás") then Diplomacia
    else if Includes(name, "védelem") then Vedelmi
    else if Includes(name, "Stratégia") then Strategia
    else Harci
  }

  /** `createStartingCard(name, "start-i-idx")`; `tag` stands for the random suffix. */
  function StartingCard(name: string, player: nat, index: nat, tag: string): Card
  {
    Card("start-" + NatToString(player) + "-" + NatToString(index) + "-" + tag,
         name, ActionCard, Some(StartingSubType(name)), None, None, None, None)
  }

  /** The action sub-type each role's starting cards are meant to carry. */
  function Specialty(r: Role): SubType
  {
    match r
    case Ellak => Lovas
    case Aranka => Gyogyitas
    case Bajan => Kereskedelem
    case Reka => Diplomacia
    case Dengizik => Vedelmi
    case Onegeszius => Strategia
  }

  /** The keyword scan gives every role's starting cards that role's specialty. */
  lemma StartingSubTypes(r: Role)
    ensures |StartHand(r)| == 2
    ensures forall name | name in StartHand(r) :: StartingSubType(name) == Specialty(r)
  {
    var name := StartHand(r)[0];
    assert StartHand(r) == [name, name];
    match r
    case Ellak => EllakCard();
    case Aranka => ArankaCard();
    case Bajan => BajanCard();
    case Reka => RekaCard();
    case Dengizik => DengizikCard();
    case Onegeszius => OnegesziusCard();
  }

  lemma EllakCard()
    ensures StartingSubType("Lovasroham") == Specialty(Ellak)
  {
    IncludesWithin("", "Lovas", "roham");
    assert "" + "Lovas" + "roham" == "Lovasroham";
  }

  lemma ArankaMisses()
    ensures !Includes("Gyógyító rítus", "Lovas")
    ensures !Includes("Gyógyító rítus", "szertartás")
    ensures !Includes("Gyógyító rítus", "Kereskedelem")
  {
    NotIncluded("Gyógyító rítus", "Lovas", 0);
    NotIncluded("Gyógyító rítus", "szertartás", 1);
    NotIncluded("Gyógyító rítus", "Kereskedelem", 0);
  }

  lemma ArankaCard()
    ensures StartingSubType("Gyógyító rítus") == Specialty(Aranka)
  {
    ArankaMisses();
    IncludesWithin("", "Gyógyító", " rítus");
    assert "" + "Gyógyító" + " rítus" == "Gyógyító rítus";
  }

  lemma BajanMisses()
    ensures !Includes("Kereskedelem", "Lovas")
    ensures !Includes("Kereskedelem", "szertartás")
  {
    NotIncluded("Kereskedelem", "Lovas", 0);
    NotIncluded("Kereskedelem", "szertartás", 1);
  }

  lemma BajanCard()
    ensures StartingSubType("Kereskedelem") == Specialty(Bajan)
  {
    BajanMisses();
    IncludesWithin("", "Kereskedelem", "");
    assert "" + "Kereskedelem" + "" == "Kereskedelem";
  }

  lemma RekaMisses()
    ensures !Includes("Tanácsadás", "Lovas")
    ensures !Includes("Tanácsadás", "szertartás")
    ensures !Includes("Tanácsadás", "Kereskedelem")
    ensures !Includes("Tanácsadás", "Gyógyító")
  {
    NotIncluded("Tanácsadás", "Lovas", 0);
    NotIncluded("Tanácsadás", "szertartás", 1);
    NotIncluded("Tanácsadás", "Kereskedelem", 0);
    NotIncluded("Tanácsadás", "Gyógyító", 0);
  }

  lemma RekaCard()
    ensures StartingSubType("Tanácsadás") == Specialty(Reka)
  {
    RekaMisses();
    IncludesWithin("", "Tanácsadás", "");
    assert "" + "Tanácsadás" + "" == "Tanácsadás";
  }

  lemma DengizikMisses()
    ensures !Includes("Határvédelem", "Lovas")
    ensures !Includes("Határvédelem", "szertartás")
    ensures !Includes("Határvédelem", "Kereskedelem")
  {
    NotIncluded("Határvédelem", "Lovas", 0);
    NotIncluded("Határvédelem", "szertartás", 1);
    NotIncluded("Határvédelem", "Kereskedelem", 0);
  }

  lemma DengizikMissesMore()
    ensures !Includes("Határvédelem", "Gyógyító")
    ensures !Includes("Határvédelem", "Tanácsadás")
  {
    NotIncluded("Határvédelem", "Gyógyító", 0);
    NotIncluded("Határvédelem", "Tanácsadás", 0);
  }

  lemma DengizikCard()
    ensures StartingSubType("Határvédelem") == Specialty(Dengizik)
  {
    DengizikMisses();
    DengizikMissesMore();
    IncludesWithin("Határ", "védelem", "");
    assert "Határ" + "védelem" + "" == "Határvédelem";
  }

  lemma OnegesziusMisses()
    ensures !Includes("Stratégiai terv", "Lovas")
    ensures !Includes("Stratégiai terv", "szertartás")
    ensures !Includes("Stratégiai terv", "Kereskedelem")
  {
    NotIncluded("Stratégiai terv", "Lovas", 0);
    NotIncluded("Stratégiai terv", "szertartás", 1);
    NotIncluded("Stratégiai terv", "Kereskedelem", 0);
  }

  lemma OnegesziusMissesMore()
    ensures !Includes("Stratégiai terv", "Gyógyító")
    ensures !Includes("Stratégiai terv", "Tanácsadás")
    ensures !Includes("Stratégiai terv", "védelem")
  {
    NotIncluded("Stratégiai terv", "Gyógyító", 0);
    NotIncluded("Stratégiai terv", "Tanácsadás", 0);
    NotIncluded("Stratégiai terv", "védelem", 2);
  }

  lemma OnegesziusCard()
    ensures StartingSubType("Stratégiai terv") == Specialty(Onegeszius)
  {
    OnegesziusMisses();
    OnegesziusMissesMore();
    IncludesWithin("", "Stratégia", "i terv");
    assert "" + "Stratégia" + "i terv" == "Stratégiai terv";
  }

  lemma NotIncluded(s: string, part: string, j: nat)
    requires j < |part| && part[j] !in s
    ensures !Includes(s, part)
  {
    if Includes(s, part) {
      IncludesChars(s, part, part[j]);
    }
  }

  // ---------------------------------------------------------------------------
  // Players

  /** `role.startHand.map(...)` for player `player`. */
  function StartingHand(player: nat, role: Role, tags: (nat, nat) -> string): seq<Card>
  {
    var names := StartHand(role);
    seq(|names|, idx requires 0 <= idx < |names| => StartingCard(names[idx], player, idx, tags(player, idx)))
  }

  /** Player `i`: role `i mod 6`, in Etil with four actions. */
  function InitialPlayer(i: nat, tags: (nat, nat) -> string): Player
  {
    var role := RoleKeys[i % |RoleKeys|];
    Player("player-" + NatToString(i), RoleName(role), role, Capital, None, StartingHand(i, role, tags), 4, false)
  }

  function InitialPlayers(count: nat, tags: (nat, nat) -> string): seq<Player>
  {
    seq(count, i requires 0 <= i => InitialPlayer(i, tags))
  }

  /** The players have distinct ids, start in Etil with four actions and
      their ability unused, and hold two action cards of their role's specialty. */
  lemma InitialPlayersFacts(count: nat, tags: (nat, nat) -> string)
    ensures Roster(InitialPlayers(count, tags), count)
  {
    var players := InitialPlayers(count, tags);
    forall i, j | 0 <= i < j < count
      ensures players[i].id != players[j].id
    {
      PrefixedNumeralsDiffer("player-", i, j);
    }
    forall i | 0 <= i < count
      ensures StartingPlayer(players[i], i)
    {
      InitialPlayerStarts(i, tags);
    }
  }

  lemma InitialPlayerStarts(i: nat, tags: (nat, nat) -> string)
    ensures StartingPlayer(InitialPlayer(i, tags), i)
  {
    var role := RoleKeys[i % |RoleKeys|];
    StartingSubTypes(role);
    var hand := StartingHand(i, role, tags);
    forall card | card in hand
      ensures card.cardType == ActionCard && card.subType == Some(Specialty(role))
    {
      var idx :| 0 <= idx < |hand| && hand[idx] == card;
      var name := StartHand(role)[idx];
      assert card == StartingCard(name, i, idx, tags(i, idx));
      assert name in StartHand(role);
    }
  }

  /** `count` players with distinct ids, player `i` as `StartingPlayer` says. */
  ghost predicate Roster(players: seq<Player>, count: nat)
  {
    && |players| == count
    && DistinctPlayerIds(players)
    && forall i | 0 <= i < count :: StartingPlayer(players[i], i)
  }

  /** What every player of a new game looks like. */
  ghost predicate StartingPlayer(p: Player, i: nat)
  {
    && p.id == "player-" + NatToString(i)
    && p.role == RoleKeys[i % |RoleKeys|]
    && p.name == RoleName(p.role)
    && p.currentCity == Capital
    && p.lastCity == None
    && p.actionsRemaining == 4
    && !p.specialAbilityUsed
    && |p.hand| == 2
    && forall card | card in p.hand :: card.cardType == ActionCard && card.subType == Some(Specialty(p.role))
  }

  // ---------------------------------------------------------------------------
  // The board

  /** The record `getInitialState` writes for city `c`. */
  function InitialCity(c: CityName): City
  {
    City(c, RegionOf(c), Adjacency(c), [], false, c == Capital, false)
  }

  /** A city as a new game has it: its own name, region and neighbours, no
      threats, not lost, the capital only in Etil, no legacy marker. */
  predicate Fresh(c: CityName, city: City)
  {
    && city.name == c
    && city.region == RegionOf(c)
    && city.neighbors == Adjacency(c)
    && city.threats == []
    && !city.isLost
    && (city.hasCapital <==> c == Capital)
    && !city.isLegacyLocation
  }

  /** The `forEach` over `CITIES`: one entry per registry city. */
  method BuildCities() returns (cities: map<CityName, City>)
    ensures CitiesComplete(cities)
    ensures forall c: CityName :: Fresh(c, cities[c])
  {
    cities := map[];
    for k := 0 to CityCount
      invariant forall c | CityIndex(c) < k :: c in cities
      invariant forall c | c in cities :: Fresh(c, cities[c])
    {
      var name := CityAt(k);
      CityIndexAt(k);
      cities := cities[name := InitialCity(name)];
    }
    forall c: CityName ensures c in cities {
      CityAtIndex(c);
    }
  }

  /** A board without threats totals nothing. */
  lemma {:induction false} NoThreatsFrom(cities: map<CityName, City>, n: nat)
    requires forall c | c in cities :: cities[c].threats == []
    ensures SumFrom(cities, n) == 0
    decreases CityCount - n
  {
    if n < CityCount {
      NoThreatsFrom(cities, n + 1);
    }
  }

  /** `cities` grows from `before` only by threats appended to each city. */
  ghost predicate OnlyAppended(before: map<CityName, City>, cities: map<CityName, City>)
  {
    && cities.Keys == before.Keys
    && forall c | c in before ::
         && before[c].threats <= cities[c].threats
         && cities[c] == before[c].(threats := cities[c].threats)
  }

  /** The initial-threat loop: `count` times, a random threat type on a random
      city. The board gains exactly `count` threats and nothing else changes. */
  method PlaceThreats(cities: map<CityName, City>, count: nat, rng: Draw.Rng) returns (r: map<CityName, City>)
    requires CitiesComplete(cities)
    ensures OnlyAppended(cities, r)
    ensures TotalThreats(r) == TotalThreats(cities) + count
  {
    var names := CityKeys(cities);
    CityKeysComplete(cities, Capital);
    r := cities;
    for i := 0 to count
      invariant OnlyAppended(cities, r)
      invariant TotalThreats(r) == TotalThreats(cities) + i
    {
      var c := names[Draw.Pick(rng, 2 * i, |names|)];
      var t := ThreatTypes[Draw.Pick(rng, 2 * i + 1, |ThreatTypes|)];
      var city := r[c].(threats := r[c].threats + [t]);
      TotalThreatsUpdate(r, c, city);
      r := r[c := city];
    }
  }

  /** The board of a new game: every city present and fresh apart from its
      threats, `threats` threats in all. */
  ghost predicate Board(cities: map<CityName, City>, threats: nat)
  {
    && CitiesComplete(cities)
    && (forall c: CityName :: Fresh(c, cities[c].(threats := [])))
    && TotalThreats(cities) == threats
  }

  /** Placing `count` threats on a fresh board gives a board with `count` threats. */
  lemma PlacedBoard(before: map<CityName, City>, after: map<CityName, City>, count: nat)
    requires CitiesComplete(before) && forall c: CityName :: Fresh(c, before[c])
    requires OnlyAppended(before, after) && TotalThreats(after) == TotalThreats(before) + count
    ensures Board(after, count)
  {
    NoThreatsFrom(before, 0);
    forall c: CityName ensures Fresh(c, after[c].(threats := [])) {
      assert after[c].(threats := []) == before[c];
    }
  }

  // ---------------------------------------------------------------------------
  // The initial state

  /** The random choices of one call: the exchanges of each shuffle, the
      answers for the initial threats and the random suffixes of the starting card ids. */
  datatype Chance = Chance(
    deckSwaps: seq<(nat, nat)>,
    threatSwaps: seq<(nat, nat)>,
    placement: Draw.Rng,
    tags: (nat, nat) -> string)

  /** `getInitialState(playerCount, difficulty)`. */
  method InitialState(playerCount: nat, difficulty: string, chance: Chance) returns (s: GameState)
    ensures Roster(s.players, playerCount)
    ensures Board(s.cities, DifficultySetting(difficulty).initialThreats)
    ensures s.actionDeck == CreateDeck(DifficultySetting(difficulty).stormCards, chance.deckSwaps)
    ensures ActionDeck(s.actionDeck, DifficultySetting(difficulty).stormCards)
    ensures s.threatDeck == CreateThreatDeck(difficulty, chance.threatSwaps)
    ensures ThreatDeck(s.threatDeck, difficulty)
    ensures s.actionDiscard == [] && s.threatDiscard == []
    ensures s.activePlayerIndex == 0 && s.stormCount == 0 && s.outbreakCount == 0
    ensures s.legaciesCollected == NoLegacies && s.gameStatus == Playing && s.turnPhase == ActionPhase
    ensures s.messages == [GameStarted(difficulty)] && s.tutorialStep == 0
    ensures playerCount > 0 ==> Wellformed(s)
  {
    var board := BuildCities();
    var setting := DifficultySetting(difficulty);
    var cities := PlaceThreats(board, setting.initialThreats, chance.placement);
    PlacedBoard(board, cities, setting.initialThreats);
    var players := InitialPlayers(playerCount, chance.tags);
    InitialPlayersFacts(playerCount, chance.tags);
    DeckContents(setting.stormCards, chance.deckSwaps);
    ThreatDeckContents(difficulty, chance.threatSwaps);
    s := GameState(cities, players, 0,
                   CreateDeck(setting.stormCards, chance.deckSwaps), [],
                   CreateThreatDeck(difficulty, chance.threatSwaps), [],
                   0, 0, NoLegacies, Playing, ActionPhase, [GameStarted(difficulty)], 0);
  }
}
