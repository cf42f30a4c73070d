/**
 * The retrieval half of the protocol assistant: a keyword filter over a fixed
 * catalog of protocol documents, and a first-match substring lookup in a fixed
 * table of diagnosis-related groups (GRD).
 */
module KnowledgeBase {
  import opened Wrappers

  datatype ProtocolDocument = ProtocolDocument(id: string, title: string, tags: seq<string>, content: string)

  datatype Complexity = Alta | Media | Baja

  /** A diagnosis-related group; `avgStay` is in days. */
  datatype GRDMaster = GRDMaster(code: string, name: string, avgStay: real, complexity: Complexity)

  const HospitalProtocols: seq<ProtocolDocument> := [
    ProtocolDocument(
      "prot-001",
      "Protocolo de Colapso en Urgencia",
      ["urgencia", "colapso", "saturación", "critico"],
      "ACTIVAR CÓDIGO DE GESTIÓN: 1. Suspender cirugías electivas. 2. Habilitar pasillos de transición en Medicina. 3. Priorizar altas médicas antes de las 11:00 AM. 4. Evaluar traslado a red extra-hospitalaria."),
    ProtocolDocument(
      "prot-002",
      "Criterios de Gestión UPC",
      ["upc", "uci", "uti", "critico"],
      "Para optimizar flujo UPC: Pacientes con estabilidad hemodinámica > 24h deben ser trasladados a Intermedio o Medicina (\"Step-down\"). Revisar diariamente pacientes con criterios de salida."),
    ProtocolDocument(
      "prot-003",
      "Bloqueo de Camas",
      ["bloqueo", "mantenimiento", "aislamiento"],
      "El bloqueo de camas por aislamiento debe ser re-evaluado cada 12 horas por IAAS. Camas bloqueadas por falla técnica deben tener orden de trabajo activa en Ingeniería."),
    ProtocolDocument(
      "prot-004",
      "Flujo Normal de Altas",
      ["flujo", "normal", "bajo", "medio"],
      "Objetivo diario: Liberar 15% de capacidad total antes de las 13:00 hrs. Gestionar ambulancias para traslados a domicilio el día previo."),
    ProtocolDocument(
      "tpl-001",
      "Template Epicrisis Estándar",
      ["epicrisis", "alta", "documento"],
      "FORMATO EPICRISIS: 1. Resumen Ingreso (Motivo). 2. Evolución Clínica (Hitos, complicaciones). 3. Procedimientos realizados. 4. Indicaciones al Alta (Fármacos, control). 5. Signos de Alarma.")
  ]

  const GrdDatabase: seq<GRDMaster> := [
    GRDMaster("GRD-121", "Insuficiencia Cardíaca con CC", 5.2, Alta),
    GRDMaster("GRD-089", "Neumonía Simple / Pleuresía > 17 años", 4.1, Media),
    GRDMaster("GRD-330", "Apendicectomía Complicada", 3.5, Media),
    GRDMaster("GRD-880", "Accidente Cerebrovascular Isquémico", 6.8, Alta),
    GRDMaster("GRD-035", "Trastornos de la Vesícula Biliar", 2.1, Baja),
    GRDMaster("GRD-540", "Infecciones Renales y Urinarias", 3.8, Media)
  ]

  /** The GRD table: six groups, in this order, each code once. */
  lemma GrdCatalog()
    ensures |GrdDatabase| == 6
    ensures GrdDatabase[0].code == "GRD-121" && GrdDatabase[1].code == "GRD-089"
    ensures GrdDatabase[2].code == "GRD-330" && GrdDatabase[3].code == "GRD-880"
    ensures GrdDatabase[4].code == "GRD-035" && GrdDatabase[5].code == "GRD-540"
    ensures forall i, j :: 0 <= i < j < |GrdDatabase| ==> GrdDatabase[i].code != GrdDatabase[j].code
  {
  }

  // ---------------------------------------------------------------------------
  // Lower-casing
  // ---------------------------------------------------------------------------

  /** Upper-case letters that the lowering maps: ASCII A-Z and Latin-1 À-Þ except ×. */
  predicate IsUpper(c: char)
  {
    ('A' <= c <= 'Z') || ('À' <= c <= 'Þ' && c != '×')
  }

  function LowerChar(c: char): (l: char)
    ensures !IsUpper(l)
    ensures IsUpper(c) ==> l as int == c as int + 32
    ensures !IsUpper(c) ==> l == c
  {
    if IsUpper(c) then (c as int + 32) as char else c
  }

  /** `toLowerCase`, character by character. */
  function ToLower(s: string): (r: string)
    ensures |r| == |s|
    ensures forall i :: 0 <= i < |r| ==> !IsUpper(r[i])
    ensures forall i :: 0 <= i < |s| && !IsUpper(s[i]) ==> r[i] == s[i]
    ensures forall i :: 0 <= i < |s| ==> r[i] == LowerChar(s[i])
  {
    if s == [] then [] else [LowerChar(s[0])] + ToLower(s[1..])
  }

  /** A string without upper-case letters is its own lower-case form. */
  lemma ToLowerOfLower(s: string)
    requires forall i :: 0 <= i < |s| ==> !IsUpper(s[i])
    ensures ToLower(s) == s
  {
  }

  /** Lowering twice is lowering once. */
  lemma ToLowerIdempotent(s: string)
    ensures ToLower(ToLower(s)) == ToLower(s)
  {
    ToLowerOfLower(ToLower(s));
  }

  // ---------------------------------------------------------------------------
  // Protocol retrieval
  // ---------------------------------------------------------------------------

  /** Some tag of the document, lowered, is one of the keywords (compared exactly). */
  predicate Matches(doc: ProtocolDocument, keywords: seq<string>)
  {
    exists tag :: tag in doc.tags && ToLower(tag) in keywords
  }

  /** The `filter` over the catalog: the matching documents in catalog order. */
  function Relevant(docs: seq<ProtocolDocument>, keywords: seq<string>): (r: seq<ProtocolDocument>)
    ensures forall d :: d in r <==> d in docs && Matches(d, keywords)
  {
    if docs == [] then []
    else if Matches(docs[0], keywords) then [docs[0]] + Relevant(docs[1..], keywords)
    else Relevant(docs[1..], keywords)
  }

  predicate Distinct<T(==)>(s: seq<T>)
  {
    forall i, j :: 0 <= i < j < |s| ==> s[i] != s[j]
  }

  /** `[...new Set(s)]`: each element once, at the position of its first occurrence. */
  function Dedup<T(==,!new)>(s: seq<T>): (r: seq<T>)
    ensures forall x :: x in r <==> x in s
    ensures Distinct(r)
  {
    if s == [] then []
    else
      var init := s[..|s| - 1];
      var last := s[|s| - 1];
      assert forall x :: x in s <==> x in init || x == last;
      if last in init then Dedup(init) else Dedup(init) + [last]
  }

  /** Deduplicating a list that has no repeats changes nothing. */
  lemma {:induction false} DedupOfDistinct<T(!new)>(s: seq<T>)
    requires Distinct(s)
    ensures Dedup(s) == s
    decreases |s|
  {
    if s != [] {
      var init := s[..|s| - 1];
      assert s == init + [s[|s| - 1]];
      DedupOfDistinct(init);
    }
  }

  /** `a` can be obtained from `b` by deleting elements. */
  ghost predicate IsSubsequence<T>(a: seq<T>, b: seq<T>)
    decreases |b|
  {
    a == [] || (b != [] && ((a[0] == b[0] && IsSubsequence(a[1..], b[1..])) || IsSubsequence(a, b[1..])))
  }

  /** Appending to the longer list keeps a subsequence a subsequence. */
  lemma {:induction false} SubsequenceExtend<T>(a: seq<T>, b: seq<T>, x: T)
    requires IsSubsequence(a, b)
    ensures IsSubsequence(a, b + [x])
    decreases |b|
  {
    if a != [] {
      assert (b + [x])[1..] == b[1..] + [x];
      if a[0] == b[0] && IsSubsequence(a[1..], b[1..]) {
        SubsequenceExtend(a[1..], b[1..], x);
      } else {
        SubsequenceExtend(a, b[1..], x);
      }
    }
  }

  /** Appending the same element to both lists keeps a subsequence a subsequence. */
  lemma {:induction false} SubsequenceAppendBoth<T>(a: seq<T>, b: seq<T>, x: T)
    requires IsSubsequence(a, b)
    ensures IsSubsequence(a + [x], b + [x])
    decreases |b|
  {
    if b == [] {
      assert a + [x] == [x] && (a + [x])[1..] == [];
    } else {
      assert (b + [x])[1..] == b[1..] + [x];
      if a != [] && a[0] == b[0] && IsSubsequence(a[1..], b[1..]) {
        SubsequenceAppendBoth(a[1..], b[1..], x);
        assert (a + [x])[1..] == a[1..] + [x];
      } else {
        SubsequenceAppendBoth(a, b[1..], x);
      }
    }
  }

  /** Deduplicating keeps the kept elements in their original order. */
  lemma {:induction false} DedupIsSubsequence<T(!new)>(s: seq<T>)
    ensures IsSubsequence(Dedup(s), s)
    decreases |s|
  {
    if s != [] {
      var init, last := s[..|s| - 1], s[|s| - 1];
      DedupIsSubsequence(init);
      assert s == init + [last];
      if last in init {
        SubsequenceExtend(Dedup(init), init, last);
      } else {
        SubsequenceAppendBoth(Dedup(init), init, last);
      }
    }
  }

  /** The position of the first occurrence of `x` in `s`. */
  function FirstIndex<T(==)>(s: seq<T>, x: T): (k: nat)
    requires x in s
    ensures k < |s| && s[k] == x
    ensures forall j :: 0 <= j < k ==> s[j] != x
  {
    if s[0] == x then 0 else 1 + FirstIndex(s[1..], x)
  }

  /** A position holding `x` with no `x` before it is the first occurrence. */
  lemma FirstIndexUnique<T>(s: seq<T>, x: T, k: nat)
    requires k < |s| && s[k] == x
    requires forall j :: 0 <= j < k ==> s[j] != x
    ensures FirstIndex(s, x) == k
  {
  }

  /**
   * Deduplicating lists the values in the order of their first occurrence; with membership
   * and `Distinct`, this pins the result down completely.
   */
  lemma {:induction false} DedupFirstOccurrenceOrder<T(!new)>(s: seq<T>)
    ensures forall i, j :: 0 <= i < j < |Dedup(s)| ==> FirstIndex(s, Dedup(s)[i]) < FirstIndex(s, Dedup(s)[j])
    decreases |s|
  {
    if s != [] {
      var init, last := s[..|s| - 1], s[|s| - 1];
      DedupFirstOccurrenceOrder(init);
      var r, r0 := Dedup(s), Dedup(init);
      forall y | y in init
        ensures FirstIndex(s, y) == FirstIndex(init, y)
      {
        FirstIndexUnique(s, y, FirstIndex(init, y));
      }
      if last !in init {
        FirstIndexUnique(s, last, |s| - 1);
      }
      forall i, j | 0 <= i < j < |r|
        ensures FirstIndex(s, r[i]) < FirstIndex(s, r[j])
      {
        assert r[i] in r0;
        if j < |r0| {
          assert r[i] == r0[i] && r[j] == r0[j];
        }
      }
    }
  }

  /** Filtering keeps the survivors in their original order. */
  lemma {:induction false} RelevantIsSubsequence(docs: seq<ProtocolDocument>, keywords: seq<string>)
    ensures IsSubsequence(Relevant(docs, keywords), docs)
    decreases |docs|
  {
    if docs != [] {
      RelevantIsSubsequence(docs[1..], keywords);
    }
  }

  /** Filtering a list without repeats gives a list without repeats. */
  lemma {:induction false} RelevantDistinct(docs: seq<ProtocolDocument>, keywords: seq<string>)
    requires Distinct(docs)
    ensures Distinct(Relevant(docs, keywords))
    decreases |docs|
  {
    if docs != [] {
      assert Distinct(docs[1..]);
      RelevantDistinct(docs[1..], keywords);
    }
  }

  /** Filtering with more keywords keeps at least the same documents, in the same order. */
  lemma {:induction false} RelevantMonotone(docs: seq<ProtocolDocument>, k1: seq<string>, k2: seq<string>)
    requires forall k :: k in k1 ==> k in k2
    ensures IsSubsequence(Relevant(docs, k1), Relevant(docs, k2))
    decreases |docs|
  {
    if docs != [] {
      RelevantMonotone(docs[1..], k1, k2);
      var r1, r2 := Relevant(docs, k1), Relevant(docs, k2);
      if Matches(docs[0], k1) {
        assert r1[1..] == Relevant(docs[1..], k1);
        assert r2[1..] == Relevant(docs[1..], k2);
      } else if Matches(docs[0], k2) {
        assert r2[1..] == Relevant(docs[1..], k2);
        SubsequenceSkip(r1, r2[0], r2[1..]);
        assert [r2[0]] + r2[1..] == r2;
      }
    }
  }

  /** Prepending an element to the longer list keeps a subsequence a subsequence. */
  lemma SubsequenceSkip<T>(a: seq<T>, x: T, b: seq<T>)
    requires IsSubsequence(a, b)
    ensures IsSubsequence(a, [x] + b)
  {
    assert ([x] + b)[1..] == b;
  }

  /** The catalog lists each document once. */
  lemma CatalogDistinct()
    ensures Distinct(HospitalProtocols)
  {
  }

  /** `retrieveRelevantProtocols`: the catalog filtered by tag overlap, then deduplicated. */
  function RetrieveRelevantProtocols(contextKeywords: seq<string>): (r: seq<ProtocolDocument>)
    ensures forall d :: d in r <==> d in HospitalProtocols && Matches(d, contextKeywords)
    ensures Distinct(r)
  {
    Dedup(Relevant(HospitalProtocols, contextKeywords))
  }

  /** The deduplication is a no-op: the result is the plain filter, a subsequence of the catalog. */
  lemma RetrieveIsCatalogSubsequence(contextKeywords: seq<string>)
    ensures RetrieveRelevantProtocols(contextKeywords) == Relevant(HospitalProtocols, contextKeywords)
    ensures IsSubsequence(RetrieveRelevantProtocols(contextKeywords), HospitalProtocols)
  {
    CatalogDistinct();
    RelevantDistinct(HospitalProtocols, contextKeywords);
    DedupOfDistinct(Relevant(HospitalProtocols, contextKeywords));
    RelevantIsSubsequence(HospitalProtocols, contextKeywords);
  }

  /** Adding keywords never drops a returned document, nor reorders the ones returned. */
  lemma RetrieveMonotone(k1: seq<string>, k2: seq<string>)
    requires forall k :: k in k1 ==> k in k2
    ensures IsSubsequence(RetrieveRelevantProtocols(k1), RetrieveRelevantProtocols(k2))
  {
    RetrieveIsCatalogSubsequence(k1);
    RetrieveIsCatalogSubsequence(k2);
    RelevantMonotone(HospitalProtocols, k1, k2);
  }

  /** When no catalog document matches, nothing is returned. */
  lemma NoMatchNoDocuments(contextKeywords: seq<string>)
    requires forall d :: d in HospitalProtocols ==> !Matches(d, contextKeywords)
    ensures RetrieveRelevantProtocols(contextKeywords) == []
  {
    RetrieveIsCatalogSubsequence(contextKeywords);
    RelevantNone(HospitalProtocols, contextKeywords);
  }

  /** Filtering out every document leaves nothing. */
  lemma {:induction false} RelevantNone(docs: seq<ProtocolDocument>, keywords: seq<string>)
    requires forall d :: d in docs ==> !Matches(d, keywords)
    ensures Relevant(docs, keywords) == []
    decreases |docs|
  {
    if docs != [] {
      RelevantNone(docs[1..], keywords);
    }
  }

  /** No keywords, no documents. */
  lemma RetrieveNoKeywords()
    ensures RetrieveRelevantProtocols([]) == []
  {
    NoMatchNoDocuments([]);
  }

  /** Only the tags are lowered: a keyword with an upper-case letter matches nothing. */
  lemma UpperCaseKeywordMatchesNothing(keyword: string, i: nat)
    requires i < |keyword| && IsUpper(keyword[i])
    ensures RetrieveRelevantProtocols([keyword]) == []
  {
    forall d | d in HospitalProtocols
      ensures !Matches(d, [keyword])
    {
      forall tag | tag in d.tags
        ensures ToLower(tag) != keyword
      {
      }
    }
    NoMatchNoDocuments([keyword]);
  }

  /** The tags of the catalog. */
  lemma CatalogTags()
    ensures HospitalProtocols[0].tags == ["urgencia", "colapso", "saturación", "critico"]
    ensures HospitalProtocols[1].tags == ["upc", "uci", "uti", "critico"]
    ensures HospitalProtocols[2].tags == ["bloqueo", "mantenimiento", "aislamiento"]
    ensures HospitalProtocols[3].tags == ["flujo", "normal", "bajo", "medio"]
    ensures HospitalProtocols[4].tags == ["epicrisis", "alta", "documento"]
  {
  }

  /** A tag of another length, or starting with another lower-case letter, never lowers to "critico". */
  lemma NotCritico(tag: string)
    requires |tag| != 7 || (!IsUpper(tag[0]) && tag[0] != 'c')
    ensures ToLower(tag) != "critico"
  {
    if |tag| == 7 {
      assert ToLower(tag)[0] == tag[0];
    }
  }

  /** Of the catalog, the keyword "critico" matches the first two documents only. */
  lemma CriticoMatchesFirstTwo(i: nat)
    requires i < |HospitalProtocols|
    ensures Matches(HospitalProtocols[i], ["critico"]) <==> i < 2
  {
    var d, k := HospitalProtocols[i], ["critico"];
    CatalogTags();
    if i < 2 {
      assert "critico" in d.tags;
      ToLowerOfLower("critico");
    } else {
      forall tag | tag in d.tags
        ensures ToLower(tag) !in k
      {
        NotCritico(tag);
      }
    }
  }

  /** The keyword "critico" returns the emergency-collapse and ICU documents, each once. */
  lemma RetrieveCritico()
    ensures RetrieveRelevantProtocols(["critico"]) == [HospitalProtocols[0], HospitalProtocols[1]]
  {
    var c, k := HospitalProtocols, ["critico"];
    CriticoMatchesFirstTwo(0);
    CriticoMatchesFirstTwo(1);
    CriticoMatchesFirstTwo(2);
    CriticoMatchesFirstTwo(3);
    CriticoMatchesFirstTwo(4);
    RetrieveIsCatalogSubsequence(k);
    RelevantFirstTwoOfFive(c, k);
  }

  /** Filtering five documents of which only the first two match. */
  lemma RelevantFirstTwoOfFive(c: seq<ProtocolDocument>, k: seq<string>)
    requires |c| == 5
    requires Matches(c[0], k) && Matches(c[1], k)
    requires !Matches(c[2], k) && !Matches(c[3], k) && !Matches(c[4], k)
    ensures Relevant(c, k) == [c[0], c[1]]
  {
    assert Relevant(c[4..], k) == [] by { assert c[4..][1..] == []; }
    assert Relevant(c[3..], k) == [] by { assert c[3..][1..] == c[4..]; }
    assert Relevant(c[2..], k) == [] by { assert c[2..][1..] == c[3..]; }
    assert Relevant(c[1..], k) == [c[1]] by { assert c[1..][1..] == c[2..]; }
  }

  // ---------------------------------------------------------------------------
  // GRD lookup
  // ---------------------------------------------------------------------------

  /** `needle` sits in `hay` starting at position `i`. */
  predicate OccursAt(hay: string, needle: string, i: int)
  {
    0 <= i <= |hay| - |needle| && hay[i..i + |needle|] == needle
  }

  /** `hay.includes(needle)`: `needle` occurs as a contiguous block of `hay`. */
  function Contains(hay: string, needle: string): (r: bool)
    ensures r <==> exists i :: OccursAt(hay, needle, i)
    decreases |hay|
  {
    if |needle| > |hay| then false
    else if hay[..|needle|] == needle then
      assert OccursAt(hay, needle, 0);
      true
    else
      var r := Contains(hay[1..], needle);
      assert forall i :: OccursAt(hay[1..], needle, i) ==> OccursAt(hay, needle, i + 1) by {
        forall i | OccursAt(hay[1..], needle, i) ensures OccursAt(hay, needle, i + 1) {
          assert hay[1..][i..i + |needle|] == hay[i + 1..i + 1 + |needle|];
        }
      }
      assert forall i :: OccursAt(hay, needle, i) ==> OccursAt(hay[1..], needle, i - 1) by {
        forall i | OccursAt(hay, needle, i) ensures OccursAt(hay[1..], needle, i - 1) {
          assert i != 0;
          assert hay[1..][i - 1..i - 1 + |needle|] == hay[i..i + |needle|];
        }
      }
      r
  }

  /** The lookup rule: either lowered text contains the other. */
  predicate GrdMatches(g: GRDMaster, lowerDiagnosis: string)
  {
    Contains(lowerDiagnosis, ToLower(g.name)) || Contains(ToLower(g.name), lowerDiagnosis)
  }

  /** The position `find` stops at: the first entry that matches, or the table length when none does. */
  function FindIndex(table: seq<GRDMaster>, lowerDiagnosis: string): (k: nat)
    ensures k <= |table|
    ensures k < |table| ==> GrdMatches(table[k], lowerDiagnosis)
    ensures forall j :: 0 <= j < k ==> !GrdMatches(table[j], lowerDiagnosis)
  {
    if table == [] then 0
    else if GrdMatches(table[0], lowerDiagnosis) then 0
    else 1 + FindIndex(table[1..], lowerDiagnosis)
  }

  /** `findGRDMatch`: the first GRD whose lowered name contains, or is contained in, the lowered diagnosis. */
  function FindGRDMatch(diagnosis: string): (r: Option<GRDMaster>)
    ensures r.Some? ==> r.value in GrdDatabase && GrdMatches(r.value, ToLower(diagnosis))
    ensures r.None? ==> forall g :: g in GrdDatabase ==> !GrdMatches(g, ToLower(diagnosis))
  {
    var k := FindIndex(GrdDatabase, ToLower(diagnosis));
    if k < |GrdDatabase| then Some(GrdDatabase[k]) else None
  }

  /** The empty string occurs in every name, so every entry matches an empty diagnosis. */
  lemma EmptyDiagnosisMatchesAll(g: GRDMaster)
    ensures GrdMatches(g, "")
  {
    assert OccursAt(ToLower(g.name), "", 0);
  }

  /** An empty diagnosis therefore finds the first entry, GRD-121. */
  lemma EmptyDiagnosisMatchesFirst()
    ensures FindGRDMatch("") == Some(GrdDatabase[0])
    ensures FindGRDMatch("").value.code == "GRD-121"
  {
    assert ToLower("") == "";
    EmptyDiagnosisMatchesAll(GrdDatabase[0]);
  }
}
