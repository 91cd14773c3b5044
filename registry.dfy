/** The pre-seeded institution table that the server's handler, its predictor and the
    front end all read, and the facts it satisfies. */
module Registry {
  import opened Strings

  datatype Tipo = Oficial | Estimada

  /** One institution: `inicioOficial`, `tipo`, `fuente` and `confianza` may be absent;
      every record of the table carries a (possibly empty) `historic` list. */
  datatype Record = Record(
    nombre: string,
    inicioOficial: Option<string>,
    tipo: Option<Tipo>,
    fuente: Option<string>,
    confianza: Option<real>,
    historic: seq<string>)

  function Official(nombre: string, inicio: string, fuente: string, confianza: real, historic: seq<string>): Record {
    Record(nombre, Some(inicio), Some(Oficial), Some(fuente), Some(confianza), historic)
  }

  function Estimated(nombre: string, inicio: string, historic: seq<string>): Record {
    Record(nombre, Some(inicio), Some(Estimada), Some("estimación histórica"), Some(0.30), historic)
  }

  function HistoryOnly(nombre: string, historic: seq<string>): Record {
    Record(nombre, None, None, None, None, historic)
  }

  // The records, in the order of the source table.
  const Pucp: Record := Official("PUCP", "2026-03-23T08:00:00Z", "Cal.Académico PUCP", 0.85, ["2026-03-22T08:00:00Z", "2026-03-25T08:00:00Z"])
  const UniversidadDeLima: Record := Official("Universidad de Lima", "2026-04-06T08:00:00Z", "Calendario Admisión ULima", 0.75, ["2026-04-06T08:00:00Z"])
  const Unmsm: Record := Estimated("UNMSM", "2026-03-16T08:00:00Z", ["2026-04-01T08:00:00Z", "2026-04-03T08:00:00Z"])
  const UniversidadDelPacifico: Record := Estimated("Universidad del Pacífico", "2026-03-09T08:00:00Z", [])
  const Uni: Record := Estimated("UNI", "2026-03-16T08:00:00Z", ["2026-03-15T08:00:00Z", "2026-03-18T08:00:00Z"])
  const Upch: Record := Estimated("UPCH", "2026-03-16T08:00:00Z", ["2026-03-20T08:00:00Z", "2026-03-22T08:00:00Z"])
  const Ucsur: Record := Estimated("UCSUR", "2026-03-17T08:00:00Z", [])
  const Urp: Record := Estimated("URP", "2026-03-16T08:00:00Z", [])
  const Unfv: Record := HistoryOnly("UNFV", ["2026-04-05T08:00:00Z", "2026-04-07T08:00:00Z"])
  const Usmp: Record := HistoryOnly("USMP", ["2026-03-28T08:00:00Z", "2026-03-30T08:00:00Z"])
  const Udep: Record := HistoryOnly("UDEP", ["2026-03-10T08:00:00Z", "2026-03-12T08:00:00Z"])
  const Unalm: Record := HistoryOnly("UNALM", ["2026-03-12T08:00:00Z", "2026-03-14T08:00:00Z"])
  const UnalmLima: Record := HistoryOnly("UNALM-LIMA", ["2026-03-12T08:00:00Z"])
  const Unaj: Record := HistoryOnly("UNAJ", ["2023-04-02T08:00:00Z"])
  const Unprg: Record := HistoryOnly("UNPRG", ["2026-03-18T08:00:00Z"])
  const Untr: Record := HistoryOnly("UNTR", ["2026-04-04T08:00:00Z"])
  const Unp: Record := HistoryOnly("UNP", ["2026-03-05T08:00:00Z"])
  const Unal: Record := HistoryOnly("UNAL", ["2026-03-09T08:00:00Z"])
  const Ucv: Record := HistoryOnly("UCV", ["2026-03-21T08:00:00Z"])
  const Upc: Record := HistoryOnly("UPC", ["2026-03-24T08:00:00Z"])
  const UdepPiura: Record := HistoryOnly("UDEP-PIURA", ["2026-03-11T08:00:00Z"])
  const Unsa: Record := HistoryOnly("UNSA", ["2026-03-26T08:00:00Z"])
  const UnajTacna: Record := HistoryOnly("UNAJ-TACNA", ["2026-04-06T08:00:00Z"])
  const Unam: Record := HistoryOnly("UNAM", ["2026-03-14T08:00:00Z"])

  const Universidades: seq<Record> := [
    Pucp, UniversidadDeLima, Unmsm, UniversidadDelPacifico, Uni, Upch, Ucsur, Urp, Unfv,
    Usmp, Udep, Unalm, UnalmLima, Unaj, Unprg, Untr, Unp, Unal, Ucv, Upc, UdepPiura, Unsa,
    UnajTacna, Unam
  ]

  /** `table.find(u => u.nombre.toLowerCase() === name.toLowerCase())`: the first record
      whose name equals `name` ignoring case, or none when no record does. */
  function Find(table: seq<Record>, name: string): (r: Option<Record>)
    ensures r.Some? ==> exists i :: 0 <= i < |table| && table[i] == r.value && FirstMatch(table, name, i)
    ensures r.None? <==> forall i {:trigger SameIgnoringCase(table[i].nombre, name)} ::
      0 <= i < |table| ==> !SameIgnoringCase(table[i].nombre, name)
  {
    if table == [] then None
    else if SameIgnoringCase(table[0].nombre, name) then
      assert FirstMatch(table, name, 0);
      Some(table[0])
    else
      var r := Find(table[1..], name);
      if r.Some? then
        var i :| 0 <= i < |table[1..]| && table[1..][i] == r.value && FirstMatch(table[1..], name, i);
        assert FirstMatch(table, name, i + 1);
        r
      else
        assert forall i :: 1 <= i < |table| ==> table[i] == table[1..][i - 1];
        r
  }

  /** Record `i` matches `name` and no earlier record does. */
  predicate FirstMatch(table: seq<Record>, name: string, i: int) {
    0 <= i < |table| && SameIgnoringCase(table[i].nombre, name)
    && forall j {:trigger SameIgnoringCase(table[j].nombre, name)} ::
      0 <= j < i ==> !SameIgnoringCase(table[j].nombre, name)
  }

  /** No two records share a name ignoring case. */
  predicate DistinctNames(table: seq<Record>) {
    forall i, j {:trigger Lower(table[i].nombre), Lower(table[j].nombre)} ::
      0 <= i < j < |table| ==> Lower(table[i].nombre) != Lower(table[j].nombre)
  }

  /** When names are distinct, the first match is the only one: Find returns any record
      whose name matches. */
  lemma FindUnique(table: seq<Record>, name: string, i: int)
    requires DistinctNames(table)
    requires 0 <= i < |table| && SameIgnoringCase(table[i].nombre, name)
    ensures Find(table, name) == Some(table[i])
  {
    var r := Find(table, name);
    var k :| 0 <= k < |table| && table[k] == r.value && FirstMatch(table, name, k);
  }

  /** The handler's short-circuit test: a truthy `inicioOficial` and `confianza >= 0.6`
      (an absent confianza compares false). */
  predicate Trusted(r: Record) {
    Truthy(r.inicioOficial) && r.confianza.Some? && r.confianza.value >= 0.6
  }

  /** The shape of every date in the table: a `dddd-dd-dd` calendar date followed by
      `T08:00:00Z`. */
  predicate SeedDate(s: string) {
    |s| == 20 && DatePrefix(s)
    && s[10] == 'T' && s[11] == '0' && s[12] == '8' && s[13] == ':' && s[14] == '0'
    && s[15] == '0' && s[16] == ':' && s[17] == '0' && s[18] == '0' && s[19] == 'Z'
  }

  predicate AllSeedDates(h: seq<string>) {
    h == [] || (SeedDate(h[0]) && AllSeedDates(h[1..]))
  }

  predicate SeedDatesOf(r: Record) {
    (r.inicioOficial.Some? ==> SeedDate(r.inicioOficial.value)) && AllSeedDates(r.historic)
  }
}

/** Facts about the seeded table of the Registry module, each checked against its
    literal contents. */
module RegistryFacts {
  import opened Strings
  import opened Registry

  lemma SeedDatesOfPucp()
    ensures SeedDatesOf(Pucp)
  {
  }

  lemma SeedDatesOfUniversidadDeLima()
    ensures SeedDatesOf(UniversidadDeLima)
  {
  }

  lemma SeedDatesOfUnmsm()
    ensures SeedDatesOf(Unmsm)
  {
  }

  lemma SeedDatesOfUniversidadDelPacifico()
    ensures SeedDatesOf(UniversidadDelPacifico)
  {
  }

  lemma SeedDatesOfUni()
    ensures SeedDatesOf(Uni)
  {
  }

  lemma SeedDatesOfUpch()
    ensures SeedDatesOf(Upch)
  {
  }

  lemma SeedDatesOfUcsur()
    ensures SeedDatesOf(Ucsur)
  {
  }

  lemma SeedDatesOfUrp()
    ensures SeedDatesOf(Urp)
  {
  }

  lemma SeedDatesOfUnfv()
    ensures SeedDatesOf(Unfv)
  {
  }

  lemma SeedDatesOfUsmp()
    ensures SeedDatesOf(Usmp)
  {
  }

  lemma SeedDatesOfUdep()
    ensures SeedDatesOf(Udep)
  {
  }

  lemma SeedDatesOfUnalm()
    ensures SeedDatesOf(Unalm)
  {
  }

  lemma SeedDatesOfUnalmLima()
    ensures SeedDatesOf(UnalmLima)
  {
  }

  lemma SeedDatesOfUnaj()
    ensures SeedDatesOf(Unaj)
  {
  }

  lemma SeedDatesOfUnprg()
    ensures SeedDatesOf(Unprg)
  {
  }

  lemma SeedDatesOfUntr()
    ensures SeedDatesOf(Untr)
  {
  }

  lemma SeedDatesOfUnp()
    ensures SeedDatesOf(Unp)
  {
  }

  lemma SeedDatesOfUnal()
    ensures SeedDatesOf(Unal)
  {
  }

  lemma SeedDatesOfUcv()
    ensures SeedDatesOf(Ucv)
  {
  }

  lemma SeedDatesOfUpc()
    ensures SeedDatesOf(Upc)
  {
  }

  lemma SeedDatesOfUdepPiura()
    ensures SeedDatesOf(UdepPiura)
  {
  }

  lemma SeedDatesOfUnsa()
    ensures SeedDatesOf(Unsa)
  {
  }

  lemma SeedDatesOfUnajTacna()
    ensures SeedDatesOf(UnajTacna)
  {
  }

  lemma SeedDatesOfUnam()
    ensures SeedDatesOf(Unam)
  {
  }

  lemma SeedDatesRange0()
    ensures forall i :: 0 <= i < 4 ==> SeedDatesOf(Universidades[i])
  {
    SeedDatesOfPucp();
    SeedDatesOfUniversidadDeLima();
    SeedDatesOfUnmsm();
    SeedDatesOfUniversidadDelPacifico();
  }

  lemma SeedDatesRange1()
    ensures forall i :: 4 <= i < 8 ==> SeedDatesOf(Universidades[i])
  {
    SeedDatesOfUni();
    SeedDatesOfUpch();
    SeedDatesOfUcsur();
    SeedDatesOfUrp();
  }

  lemma SeedDatesRange2()
    ensures forall i :: 8 <= i < 12 ==> SeedDatesOf(Universidades[i])
  {
    SeedDatesOfUnfv();
    SeedDatesOfUsmp();
    SeedDatesOfUdep();
    SeedDatesOfUnalm();
  }

  lemma SeedDatesRange3()
    ensures forall i :: 12 <= i < 16 ==> SeedDatesOf(Universidades[i])
  {
    SeedDatesOfUnalmLima();
    SeedDatesOfUnaj();
    SeedDatesOfUnprg();
    SeedDatesOfUntr();
  }

  lemma SeedDatesRange4()
    ensures forall i :: 16 <= i < 20 ==> SeedDatesOf(Universidades[i])
  {
    SeedDatesOfUnp();
    SeedDatesOfUnal();
    SeedDatesOfUcv();
    SeedDatesOfUpc();
  }

  lemma SeedDatesRange5()
    ensures forall i :: 20 <= i < 24 ==> SeedDatesOf(Universidades[i])
  {
    SeedDatesOfUdepPiura();
    SeedDatesOfUnsa();
    SeedDatesOfUnajTacna();
    SeedDatesOfUnam();
  }

  /** Every `inicioOficial` and every history entry is a seed date. */
  lemma SeedDatesHold()
    ensures forall i :: 0 <= i < |Universidades| ==> SeedDatesOf(Universidades[i])
  {
    SeedDatesRange0();
    SeedDatesRange1();
    SeedDatesRange2();
    SeedDatesRange3();
    SeedDatesRange4();
    SeedDatesRange5();
  }

  /** Every confianza present in the table lies in [0, 1]. */
  lemma ConfianzaInUnitRange()
    ensures forall i :: 0 <= i < |Universidades| && Universidades[i].confianza.Some? ==>
      0.0 <= Universidades[i].confianza.value <= 1.0
  {
  }

  /** Exactly the first two records (PUCP and Universidad de Lima) are trusted, and both
      are official with an official start date. */
  lemma OnlyTwoTrusted()
    ensures forall i :: 0 <= i < |Universidades| ==> (Trusted(Universidades[i]) <==> i < 2)
    ensures forall i :: 0 <= i < 2 ==>
      Universidades[i].tipo == Some(Oficial) && Universidades[i].inicioOficial.Some?
  {
  }

  /** Every estimated record has confianza 0.30, and the records from the ninth on have no
      official date; so none of them is trusted. */
  lemma EstimatedAreUntrusted()
    ensures forall i :: 0 <= i < |Universidades| && Universidades[i].tipo == Some(Estimada) ==>
      Universidades[i].confianza == Some(0.30)
    ensures forall i :: 8 <= i < |Universidades| ==> Universidades[i].inicioOficial.None?
  {
  }

  function LowerAt(s: string, k: int): char {
    if 0 <= k < |s| then LowerChar(s[k]) else ' '
  }

  /** A few lowered characters of a name: equal lowered names have equal fingerprints. */
  function Fingerprint(s: string): (int, char, char, char) {
    (|s|, LowerAt(s, 1), LowerAt(s, 3), LowerAt(s, |s| - 1))
  }

  lemma FingerprintSeparates(a: string, b: string)
    requires Fingerprint(a) != Fingerprint(b)
    ensures Lower(a) != Lower(b)
  {
    if Lower(a) == Lower(b) {
      assert |a| == |b|;
      assert forall k :: 0 <= k < |a| ==> LowerChar(a[k]) == Lower(a)[k] == LowerChar(b[k]);
    }
  }

  /** The fingerprints of the table's names, in table order. */
  const Prints: seq<(int, char, char, char)> := [
    (4, 'u', 'p', 'p'),
    (19, 'n', 'v', 'a'),
    (5, 'n', 's', 'm'),
    (24, 'n', 'v', 'o'),
    (3, 'n', ' ', 'i'),
    (4, 'p', 'h', 'h'),
    (5, 'c', 'u', 'r'),
    (3, 'r', ' ', 'p'),
    (4, 'n', 'v', 'v'),
    (4, 's', 'p', 'p'),
    (4, 'd', 'p', 'p'),
    (5, 'n', 'l', 'm'),
    (10, 'n', 'l', 'a'),
    (4, 'n', 'j', 'j'),
    (5, 'n', 'r', 'g'),
    (4, 'n', 'r', 'r'),
    (3, 'n', ' ', 'p'),
    (4, 'n', 'l', 'l'),
    (3, 'c', ' ', 'v'),
    (3, 'p', ' ', 'c'),
    (10, 'd', 'p', 'a'),
    (4, 'n', 'a', 'a'),
    (10, 'n', 'j', 'a'),
    (4, 'n', 'm', 'm')
  ]

  lemma PrintsOf0()
    ensures forall i :: 0 <= i < 4 ==> Fingerprint(Universidades[i].nombre) == Prints[i]
  {
  }

  lemma PrintsOf1()
    ensures forall i :: 4 <= i < 8 ==> Fingerprint(Universidades[i].nombre) == Prints[i]
  {
  }

  lemma PrintsOf2()
    ensures forall i :: 8 <= i < 12 ==> Fingerprint(Universidades[i].nombre) == Prints[i]
  {
  }

  lemma PrintsOf3()
    ensures forall i :: 12 <= i < 16 ==> Fingerprint(Universidades[i].nombre) == Prints[i]
  {
  }

  lemma PrintsOf4()
    ensures forall i :: 16 <= i < 20 ==> Fingerprint(Universidades[i].nombre) == Prints[i]
  {
  }

  lemma PrintsOf5()
    ensures forall i :: 20 <= i < 24 ==> Fingerprint(Universidades[i].nombre) == Prints[i]
  {
  }

  lemma PrintsDistinct()
    ensures forall i, j :: 0 <= i < j < |Prints| ==> Prints[i] != Prints[j]
  {
  }

  /** No two names of the table are equal ignoring case, so the first-match lookup
      never hides a second record. */
  lemma NamesAreDistinct()
    ensures DistinctNames(Universidades)
  {
    PrintsOf0();
    PrintsOf1();
    PrintsOf2();
    PrintsOf3();
    PrintsOf4();
    PrintsOf5();
    PrintsDistinct();
    forall i, j | 0 <= i < j < |Universidades|
      ensures Lower(Universidades[i].nombre) != Lower(Universidades[j].nombre)
    {
      FingerprintSeparates(Universidades[i].nombre, Universidades[j].nombre);
    }
  }

  /** The records at the head of the table, and UNI's place in it. */
  lemma Placed()
    ensures Universidades[0] == Pucp && Universidades[1] == UniversidadDeLima
    ensures Universidades[4] == Uni
  {
  }
}
