/** The static tables of the game: the city registry and its regions, the
    directed adjacency lists, the threat table (which action sub-type counters
    each threat, and how many cards it takes), the crisis and blessing cards,
    the six roles, the legacy locations and the board-wide threat ceiling.
    City, threat and role names are written without diacritics as Dafny
    identifiers; the strings the engine shows keep them. */
module Constants {

  datatype Region =
    | Pannonia | Szkitia | Alanfold | Jazygfold | Bolgarfold | Gepidafold
    | Dakia | Mozia | AtillaUdvara | TuranAlfold | Mongolia | UjgurTartomany

  datatype CityName =
    | Dnyeszter | Kolozsvar | Varhely | Kasgar | Kobdo | Karakorum
    | Szombathely | Gyulafehervar | Borisztenesz | Buhara | Turfan | Ordosz
    | Buda | Szerem | Etil | Don | Szamarkand | Kuban
    | Pecs | Szeged | Nandorfehervar | Temesvar | Varna | Odesszosz
    | Partiskum | Nikapoly | Aracsa

  /** The keys of CITIES in declaration order. Every `cities` record the game
      builds is filled in this order, so it is also the order in which the
      engine and the planner walk over the board. */
  const CityList: seq<CityName> := [
    Dnyeszter, Kolozsvar, Varhely, Kasgar, Kobdo, Karakorum,
    Szombathely, Gyulafehervar, Borisztenesz, Buhara, Turfan, Ordosz,
    Buda, Szerem, Etil, Don, Szamarkand, Kuban,
    Pecs, Szeged, Nandorfehervar, Temesvar, Varna, Odesszosz,
    Partiskum, Nikapoly, Aracsa
  ]

  /** The capital, the only city created with `hasCapital`. */
  const Capital: CityName := Etil

  function RegionOf(c: CityName): Region
  {
    match c
    case Dnyeszter => Szkitia
    case Kolozsvar => Dakia
    case Varhely => Dakia
    case Kasgar => UjgurTartomany
    case Kobdo => Mongolia
    case Karakorum => Mongolia
    case Szombathely => Pannonia
    case Gyulafehervar => Dakia
    case Borisztenesz => Szkitia
    case Buhara => TuranAlfold
    case Turfan => UjgurTartomany
    case Ordosz => Mongolia
    case Buda => Pannonia
    case Szerem => Gepidafold
    case Etil => AtillaUdvara
    case Don => Alanfold
    case Szamarkand => TuranAlfold
    case Kuban => Alanfold
    case Pecs => Pannonia
    case Szeged => Jazygfold
    case Nandorfehervar => Gepidafold
    case Temesvar => Mozia
    case Varna => Bolgarfold
    case Odesszosz => Bolgarfold
    case Partiskum => Jazygfold
    case Nikapoly => Mozia
    case Aracsa => Mozia
  }

  /** ADJACENCY: the neighbour list of each city, in the order the table lists
      them (breadth-first search visits neighbours in this order). The relation
      is directed: an entry need not have its reverse. */
  function Adjacency(c: CityName): seq<CityName>
  {
    match c
    case Etil => [Buda, Szerem, Gyulafehervar, Borisztenesz, Don, Varna, Temesvar, Szeged, Szamarkand]
    case Buda => [Etil, Szombathely, Pecs, Szerem]
    case Szombathely => [Buda, Pecs]
    case Pecs => [Buda, Szombathely, Szeged, Szerem]
    case Szerem => [Etil, Buda, Pecs, Nandorfehervar]
    case Nandorfehervar => [Szerem, Temesvar]
    case Gyulafehervar => [Etil, Kolozsvar, Varhely, Borisztenesz]
    case Kolozsvar => [Gyulafehervar, Varhely]
    case Varhely => [Gyulafehervar, Kolozsvar, Temesvar]
    case Borisztenesz => [Etil, Dnyeszter, Gyulafehervar, Don]
    case Dnyeszter => [Borisztenesz]
    case Don => [Etil, Borisztenesz, Kuban, Szamarkand, Karakorum]
    case Kuban => [Don, Varna, Szamarkand]
    case Varna => [Etil, Kuban, Odesszosz, Nikapoly]
    case Odesszosz => [Varna]
    case Temesvar => [Etil, Nandorfehervar, Aracsa, Varhely, Nikapoly]
    case Aracsa => [Temesvar, Nikapoly]
    case Nikapoly => [Temesvar, Aracsa, Varna]
    case Szeged => [Etil, Pecs, Partiskum]
    case Partiskum => [Szeged, Temesvar]
    case Szamarkand => [Etil, Don, Kuban, Buhara, Karakorum, Turfan]
    case Buhara => [Szamarkand, Turfan]
    case Karakorum => [Szamarkand, Ordosz, Turfan]
    case Ordosz => [Karakorum, Kobdo]
    case Kobdo => [Ordosz, Kasgar]
    case Turfan => [Buhara, Karakorum, Kasgar]
    case Kasgar => [Turfan, Kobdo]
  }

  // ---------------------------------------------------------------------------
  // Cards and threats

  datatype SubType =
    | Harci | Vedelmi | Kereskedelem | Gyogyitas | Diplomacia | Lovas | Szertartas | Strategia

  /** ACTION_SUBTYPES: the order in which the action deck cycles through the sub-types. */
  const ActionSubTypes: seq<SubType> :=
    [Harci, Vedelmi, Kereskedelem, Gyogyitas, Diplomacia, Lovas, Szertartas, Strategia]

  datatype ThreatType =
    | RosszTermes | Rablobanda | Jarvany | Belviszaly
    | NomadTamadas | RomaiIntrika | GermanFelkeles | PerzsaPortyazok

  /** The keys of THREAT_DETAILS in declaration order. */
  const ThreatTypes: seq<ThreatType> :=
    [RosszTermes, Rablobanda, Jarvany, Belviszaly, NomadTamadas, RomaiIntrika, GermanFelkeles, PerzsaPortyazok]

  datatype ThreatCategory = Internal | External

  /** One row of THREAT_DETAILS: resolving the threat takes `amount` action
      cards of sub-type `counter`. */
  datatype ThreatDetail = ThreatDetail(category: ThreatCategory, counter: SubType, amount: nat)

  function ThreatDetails(t: ThreatType): ThreatDetail
  {
    match t
    case RosszTermes => ThreatDetail(Internal, Kereskedelem, 2)
    case Rablobanda => ThreatDetail(Internal, Harci, 2)
    case Jarvany => ThreatDetail(Internal, Gyogyitas, 3)
    case Belviszaly => ThreatDetail(Internal, Diplomacia, 4)
    case NomadTamadas => ThreatDetail(External, Vedelmi, 3)
    case RomaiIntrika => ThreatDetail(External, Diplomacia, 3)
    case GermanFelkeles => ThreatDetail(External, Harci, 4)
    case PerzsaPortyazok => ThreatDetail(External, Lovas, 3)
  }

  datatype CrisisType = NagyEhinseg | FeketeHalal | BirodalomFelbomlasa

  /** CRISIS_CARDS in declaration order. */
  const CrisisCards: seq<CrisisType> := [NagyEhinseg, FeketeHalal, BirodalomFelbomlasa]

  /** The `type` string of a crisis card, which also becomes the card's name. */
  function CrisisName(c: CrisisType): string
  {
    match c
    case NagyEhinseg => "Nagy éhínség"
    case FeketeHalal => "Fekete halál"
    case BirodalomFelbomlasa => "Birodalom felbomlása"
  }

  datatype BlessingType = NimrodAldasa | TurulLatomasa | UstengriKegyelme | OsokTanacsa | TaltosGyogyitas

  /** BLESSING_CARDS in declaration order. */
  const BlessingCards: seq<BlessingType> :=
    [NimrodAldasa, TurulLatomasa, UstengriKegyelme, OsokTanacsa, TaltosGyogyitas]

  function BlessingName(b: BlessingType): string
  {
    match b
    case NimrodAldasa => "Nimród áldása"
    case TurulLatomasa => "Turul látomása"
    case UstengriKegyelme => "Üstengri kegyelme"
    case OsokTanacsa => "Ősök tanácsa"
    case TaltosGyogyitas => "Táltos gyógyítás"
  }

  // ---------------------------------------------------------------------------
  // Roles

  datatype Role = Ellak | Aranka | Bajan | Reka | Dengizik | Onegeszius

  /** The keys of ROLES in declaration order. */
  const RoleKeys: seq<Role> := [Ellak, Aranka, Bajan, Reka, Dengizik, Onegeszius]

  function RoleName(r: Role): string
  {
    match r
    case Ellak => "Ellák"
    case Aranka => "Aranka"
    case Bajan => "Baján"
    case Reka => "Réka"
    case Dengizik => "Dengizik"
    case Onegeszius => "Onegeszius"
  }

  /** The names of the two cards each role starts with. */
  function StartHand(r: Role): seq<string>
  {
    match r
    case Ellak => ["Lovasroham", "Lovasroham"]
    case Aranka => ["Gyógyító rítus", "Gyógyító rítus"]
    case Bajan => ["Kereskedelem", "Kereskedelem"]
    case Reka => ["Tanácsadás", "Tanácsadás"]
    case Dengizik => ["Határvédelem", "Határvédelem"]
    case Onegeszius => ["Stratégiai terv", "Stratégiai terv"]
  }

  // ---------------------------------------------------------------------------
  // Legacies and limits

  datatype Legacy = Sword | Seal | Bow | Chalice

  /** The keys of LEGACY_LOCATIONS in declaration order. */
  const LegacyKeys: seq<Legacy> := [Sword, Seal, Bow, Chalice]

  function LegacyLocation(l: Legacy): CityName
  {
    match l
    case Sword => Szombathely
    case Seal => Kuban
    case Bow => Dnyeszter
    case Chalice => Partiskum
  }

  /** MAX_THREATS_ON_BOARD: a board holding this many threats is lost. */
  const MaxThreatsOnBoard: nat := 30

  // ---------------------------------------------------------------------------
  // Properties of the tables

  /** The position of each city in the registry. */
  function CityIndex(c: CityName): nat
  {
    match c
    case Dnyeszter => 0 case Kolozsvar => 1 case Varhely => 2
    case Kasgar => 3 case Kobdo => 4 case Karakorum => 5
    case Szombathely => 6 case Gyulafehervar => 7 case Borisztenesz => 8
    case Buhara => 9 case Turfan => 10 case Ordosz => 11
    case Buda => 12 case Szerem => 13 case Etil => 14
    case Don => 15 case Szamarkand => 16 case Kuban => 17
    case Pecs => 18 case Szeged => 19 case Nandorfehervar => 20
    case Temesvar => 21 case Varna => 22 case Odesszosz => 23
    case Partiskum => 24 case Nikapoly => 25 case Aracsa => 26
  }

  const CityCount: nat := 27

  /** The city at position `n` of the registry. */
  function CityAt(n: nat): CityName
    requires n < CityCount
  {
    if n < 9 then
      if n == 0 then Dnyeszter else if n == 1 then Kolozsvar else if n == 2 then Varhely
      else if n == 3 then Kasgar else if n == 4 then Kobdo else if n == 5 then Karakorum
      else if n == 6 then Szombathely else if n == 7 then Gyulafehervar else Borisztenesz
    else if n < 18 then
      if n == 9 then Buhara else if n == 10 then Turfan else if n == 11 then Ordosz
      else if n == 12 then Buda else if n == 13 then Szerem else if n == 14 then Etil
      else if n == 15 then Don else if n == 16 then Szamarkand else Kuban
    else
      if n == 18 then Pecs else if n == 19 then Szeged else if n == 20 then Nandorfehervar
      else if n == 21 then Temesvar else if n == 22 then Varna else if n == 23 then Odesszosz
      else if n == 24 then Partiskum else if n == 25 then Nikapoly else Aracsa
  }

  /** `CityAt` and `CityIndex` are inverse: each position holds the city whose index it is. */
  lemma CityAtIndex(c: CityName)
    ensures CityIndex(c) < CityCount && CityAt(CityIndex(c)) == c
  {
  }

  lemma CityIndexAt(n: nat)
    requires n < CityCount
    ensures CityIndex(CityAt(n)) == n
  {
  }

  /** `CityAt` reads the registry. */
  lemma CityAtIsEntry(n: nat)
    requires n < CityCount
    ensures |CityList| == CityCount && CityAt(n) == CityList[n]
  {
    CityIndexOfEntry();
    CityIndexAt(n);
    CityAtIndex(CityList[n]);
  }

  /** Each entry of the registry sits at its own index, so no city is listed twice. */
  lemma CityIndexOfEntry()
    ensures forall i :: 0 <= i < |CityList| ==> CityIndex(CityList[i]) == i
  {
    forall i | 0 <= i < |CityList| ensures CityIndex(CityList[i]) == i {
      if i == 0 {} else if i == 1 {} else if i == 2 {} else if i == 3 {} else if i == 4 {}
      else if i == 5 {} else if i == 6 {} else if i == 7 {} else if i == 8 {} else if i == 9 {}
      else if i == 10 {} else if i == 11 {} else if i == 12 {} else if i == 13 {} else if i == 14 {}
      else if i == 15 {} else if i == 16 {} else if i == 17 {} else if i == 18 {} else if i == 19 {}
      else if i == 20 {} else if i == 21 {} else if i == 22 {} else if i == 23 {} else if i == 24 {}
      else if i == 25 {} else {}
    }
  }

  /** Each city sits in the registry at its index. */
  lemma EntryAtCityIndex(c: CityName)
    ensures CityIndex(c) < |CityList| && CityList[CityIndex(c)] == c
  {
  }

  /** No city is listed twice. */
  lemma CityListDistinct()
    ensures forall i, j :: 0 <= i < j < |CityList| ==> CityList[i] != CityList[j]
  {
    CityIndexOfEntry();
  }

  /** The registry lists every city exactly once: 27 cities, no repeats. */
  lemma CityListIsRegistry()
    ensures |CityList| == 27
    ensures forall c: CityName :: c in CityList
    ensures forall i, j :: 0 <= i < j < |CityList| ==> CityList[i] != CityList[j]
  {
    CityIndexOfEntry();
    forall c: CityName ensures c in CityList {
      EntryAtCityIndex(c);
    }
  }

  /** No city lists itself as a neighbour, and every city has one. */
  lemma AdjacencyIrreflexive(c: CityName)
    ensures c !in Adjacency(c)
    ensures |Adjacency(c)| > 0
  {
  }

  /** The three one-way edges of the table, with their reverses missing. */
  lemma OneWayEdges()
    ensures Karakorum in Adjacency(Don) && Don !in Adjacency(Karakorum)
    ensures Temesvar in Adjacency(Partiskum) && Partiskum !in Adjacency(Temesvar)
    ensures Turfan in Adjacency(Szamarkand) && Szamarkand !in Adjacency(Turfan)
  {
  }

  /** Every threat takes two to four cards, and no threat is countered by
      Szertartás or Stratégia cards. */
  lemma ThreatTableShape(t: ThreatType)
    ensures 2 <= ThreatDetails(t).amount <= 4
    ensures ThreatDetails(t).counter != Szertartas && ThreatDetails(t).counter != Strategia
    ensures t in ThreatTypes
  {
  }

  /** The four legacies lie in four different cities. */
  lemma LegacyLocationsDistinct(l1: Legacy, l2: Legacy)
    requires l1 != l2
    ensures LegacyLocation(l1) != LegacyLocation(l2)
  {
  }
}
