/**
 * The ingestion use case (`ProcessLotofacilData.execute`): the downloaded draws are walked
 * in batches of 100; each draw not yet stored is compared with the previous draw, the batch
 * of new draws is saved, and each new draw past number 50 gets the statistics of the 50 draws
 * before it. Finally the statistics of the 50 newest stored draws are computed.
 */
module Ingestao {
  import opened Wrappers
  import opened StableSort
  import opened ConcursoEntity
  import opened EstatisticasValue
  import opened EstatisticasService
  import opened Repositorio

  const LATEST_QTD: int := 50
  const TOP_ESTATISTICAS_QTD: int := 10
  const BATCH_SIZE: int := 100

  // ---------------------------------------------------------------------------
  // Comparison with the previous draw

  /** `s.filter(x => keep.includes(x))`. */
  function Filtrar(s: seq<int>, keep: seq<int>): (r: seq<int>)
    ensures forall x :: x in r <==> x in s && x in keep
    ensures StrictlyAscending(s) ==> StrictlyAscending(r)
  {
    if s == [] then []
    else
      var rest := Filtrar(s[1..], keep);
      var r := (if s[0] in keep then [s[0]] else []) + rest;
      assert StrictlyAscending(s) ==> StrictlyAscending(r) by {
        if StrictlyAscending(s) {
          assert forall x :: x in rest ==> s[0] < x by {
            forall x | x in rest ensures s[0] < x {
              var k :| 1 <= k < |s| && s[k] == x;
            }
          }
          if s[0] in keep {
            forall i, j | 0 <= i < j < |r| ensures r[i] < r[j] {
              assert r[j] == rest[j - 1];
              if i > 0 { assert r[i] == rest[i - 1]; } else { assert rest[j - 1] in rest; }
            }
          }
        }
      }
      r
  }

  /** `concurso.dezenas.filter(c => anterior.dezenasNaoSorteadas.includes(c))`, or `[]` without a previous draw. */
  function SorteadasMasAusentes(c: Concurso, anterior: Option<Concurso>): seq<int> {
    match anterior
    case None => []
    case Some(p) => Filtrar(c.DezenasOrdenadas(), p.DezenasNaoSorteadas())
  }

  /** `concurso.dezenas.filter(c => anterior.dezenas.includes(c))`, or `[]` without a previous draw. */
  function SorteadasERepetidas(c: Concurso, anterior: Option<Concurso>): seq<int> {
    match anterior
    case None => []
    case Some(p) => Filtrar(c.DezenasOrdenadas(), p.DezenasOrdenadas())
  }

  lemma {:induction false} FiltrarComplementares(s: seq<int>, a: seq<int>, b: seq<int>)
    requires forall i :: 0 <= i < |s| ==> (s[i] in a <==> s[i] !in b)
    ensures multiset(Filtrar(s, a)) + multiset(Filtrar(s, b)) == multiset(s)
  {
    if s != [] {
      var t := s[1..];
      assert multiset(s) == multiset{s[0]} + multiset(t) by {
        assert s == [s[0]] + t;
      }
      FiltrarComplementares(t, a, b);
      var ha := if s[0] in a then [s[0]] else [];
      var hb := if s[0] in b then [s[0]] else [];
      assert Filtrar(s, a) == ha + Filtrar(t, a) && Filtrar(s, b) == hb + Filtrar(t, b);
      assert multiset(ha) + multiset(hb) == multiset{s[0]};
    }
  }

  /**
   * Against a previous draw, the new numbers and the repeated numbers split the draw: each
   * number drawn is in exactly one list, both lists are ascending, and together they hold 15.
   */
  lemma ComparacaoParticiona(c: Concurso, p: Concurso)
    ensures var novas, repetidas := SorteadasMasAusentes(c, Some(p)), SorteadasERepetidas(c, Some(p));
      (forall x :: x in novas <==> x in c.dezenas && x !in p.dezenas) &&
      (forall x :: x in repetidas <==> x in c.dezenas && x in p.dezenas) &&
      multiset(novas) + multiset(repetidas) == multiset(c.dezenas) &&
      |novas| + |repetidas| == DEZENAS_POR_CONCURSO &&
      StrictlyAscending(novas) && StrictlyAscending(repetidas)
  {
    var s := c.DezenasOrdenadas();
    forall i | 0 <= i < |s| ensures s[i] in p.DezenasNaoSorteadas() <==> s[i] !in p.DezenasOrdenadas() {
      assert s[i] in c.dezenas;
    }
    FiltrarComplementares(s, p.DezenasNaoSorteadas(), p.DezenasOrdenadas());
    var novas, repetidas := SorteadasMasAusentes(c, Some(p)), SorteadasERepetidas(c, Some(p));
    assert |multiset(novas) + multiset(repetidas)| == |multiset(s)|;
  }

  /** Without a previous draw both lists are empty, so they do not split the draw. */
  lemma ComparacaoSemAnterior(c: Concurso)
    ensures SorteadasMasAusentes(c, None) == [] && SorteadasERepetidas(c, None) == []
  {
  }

  /** `concursos.find(c => c.numero === numero)`: the first downloaded draw with that number. */
  function Procurar(cs: seq<Concurso>, numero: int): (r: Option<Concurso>)
    ensures r.None? <==> numero !in NumerosDe(cs)
    ensures r.Some? ==> r.value in cs && r.value.numero == numero
    ensures r.Some? ==> exists k :: 0 <= k < |cs| && cs[k] == r.value && forall j :: 0 <= j < k ==> cs[j].numero != numero
  {
    if cs == [] then None
    else
      NumerosDeCons(cs);
      if cs[0].numero == numero then Some(cs[0])
      else
        var r := Procurar(cs[1..], numero);
        PrimeiroNoResto(cs, numero, r);
        r
  }

  /** A first match in the tail, after a head that does not match, is a first match in the whole list. */
  lemma PrimeiroNoResto(cs: seq<Concurso>, numero: int, r: Option<Concurso>)
    requires cs != [] && cs[0].numero != numero
    requires r.Some? ==>
      exists k :: 0 <= k < |cs[1..]| && cs[1..][k] == r.value && forall j :: 0 <= j < k ==> cs[1..][j].numero != numero
    ensures r.Some? ==> exists k :: 0 <= k < |cs| && cs[k] == r.value && forall j :: 0 <= j < k ==> cs[j].numero != numero
  {
    if r.Some? {
      var k :| 0 <= k < |cs[1..]| && cs[1..][k] == r.value && forall j :: 0 <= j < k ==> cs[1..][j].numero != numero;
      assert cs[k + 1] == r.value;
      forall j | 0 <= j < k + 1 ensures cs[j].numero != numero {
        if j > 0 { assert cs[j] == cs[1..][j - 1]; }
      }
    }
  }

  /** The previous draw: first among the downloaded draws, then in the repository. */
  function Anterior(concursos: seq<Concurso>, store: map<int, Concurso>, numero: int): Option<Concurso> {
    match Procurar(concursos, numero - 1)
    case Some(p) => Some(p)
    case None => if numero - 1 in store then Some(store[numero - 1]) else None
  }

  /** The two comparison fields, or the two statistics fields, of a draw. */
  type Campos = (Option<seq<int>>, Option<seq<int>>)

  /** The comparison fields a new draw gets: its two lists against the previous draw. */
  function ComparacaoDe(concursos: seq<Concurso>, store: map<int, Concurso>, c: Concurso): Campos {
    var anterior := Anterior(concursos, store, c.numero);
    (Some(SorteadasMasAusentes(c, anterior)), Some(SorteadasERepetidas(c, anterior)))
  }

  /**
   * `esperada` gives each downloaded draw its comparison against `concursos` and `store`. The methods
   * below speak of such a function rather than of `ComparacaoDe` itself, so that the lists
   * are unfolded only where a draw's fields are written.
   */
  ghost predicate ComparacaoConforme(esperada: imap<Concurso, Campos>, concursos: seq<Concurso>, store: map<int, Concurso>) {
    forall c {:trigger ComparacaoDe(concursos, store, c)} :: c in concursos ==> c in esperada && esperada[c] == ComparacaoDe(concursos, store, c)
  }

  lemma ExisteComparacao(concursos: seq<Concurso>, store: map<int, Concurso>)
    ensures exists esperada :: ComparacaoConforme(esperada, concursos, store)
  {
    var esperada := imap c: Concurso | c in concursos :: ComparacaoDe(concursos, store, c);
    assert ComparacaoConforme(esperada, concursos, store);
  }

  /** A draw past number 1 carries the comparison `esperada` gives it. */
  ghost predicate ComparacaoRegistrada(c: Concurso, esperada: imap<Concurso, Campos>)
    reads c
  {
    c.numero > 1 ==> c in esperada && (c.masAusentesAnterior, c.repetidasAnterior) == esperada[c]
  }

  /** Two repositories that agree outside the downloaded numbers. */
  ghost predicate MesmaBase(concursos: seq<Concurso>, s1: map<int, Concurso>, s2: map<int, Concurso>) {
    forall k :: k !in NumerosDe(concursos) ==> (k in s1 <==> k in s2) && (k in s1 ==> s1[k] == s2[k])
  }

  /**
   * The previous draw is looked up in the repository only for a number that was not
   * downloaded, so the draws a run saves itself do not change any comparison.
   */
  lemma ComparacaoOutraBase(esperada: imap<Concurso, Campos>, concursos: seq<Concurso>, s1: map<int, Concurso>, s2: map<int, Concurso>)
    requires ComparacaoConforme(esperada, concursos, s1) && MesmaBase(concursos, s1, s2)
    ensures ComparacaoConforme(esperada, concursos, s2)
  {
    forall c | c in concursos ensures c in esperada && esperada[c] == ComparacaoDe(concursos, s2, c) {
      var campos := ComparacaoDe(concursos, s1, c);
      assert c in esperada && esperada[c] == campos;
      assert Anterior(concursos, s1, c.numero) == Anterior(concursos, s2, c.numero);
    }
  }

  // ---------------------------------------------------------------------------
  // Pre-draw statistics

  /** `s.map(d => d.dezena)`, for either ranked list. */
  function Projetar<T>(s: seq<T>, dezena: T -> int): seq<int> {
    seq(|s|, i requires 0 <= i < |s| => dezena(s[i]))
  }

  /** The window of a draw `numero`: the stored draws numbered `numero - 50 .. numero - 1`. */
  function JanelaPreConcurso(store: map<int, Concurso>, numero: int): seq<Concurso> {
    Entre(store, numero - LATEST_QTD, numero - 1)
  }

  /** What a draw past number 50 records: the report on its window, reduced to the numbers. */
  function ResumoPreConcurso(store: map<int, Concurso>, numero: int): Campos {
    var e := Estatisticas(JanelaPreConcurso(store, numero), TOP_ESTATISTICAS_QTD);
    (Some(Projetar(e.maisSorteadas, Dezena)), Some(Projetar(e.maisAusentes, DezenaDoAusente)))
  }

  /** `esperado` gives each draw number the report on its window in `store`. */
  ghost predicate ResumoConforme(esperado: imap<int, Campos>, store: map<int, Concurso>) {
    forall n {:trigger ResumoPreConcurso(store, n)} :: n in esperado && esperado[n] == ResumoPreConcurso(store, n)
  }

  lemma ExisteResumo(store: map<int, Concurso>)
    ensures exists esperado :: ResumoConforme(esperado, store)
  {
    var esperado := imap n: int | true :: ResumoPreConcurso(store, n);
    assert ResumoConforme(esperado, store);
  }

  /** A draw past number 50 carries the statistics `esperado` gives its number. */
  ghost predicate EstatisticaRegistrada(c: Concurso, esperado: imap<int, Campos>)
    reads c
  {
    c.numero > LATEST_QTD ==>
      c.numero in esperado &&
      (c.estaticPreConcMaisOcorrencias, c.estaticPreConcMaisAtrasadas) == esperado[c.numero]
  }

  /** The report of a draw up to `teto` does not see the draws numbered `teto` or later. */
  lemma ResumoLocal(e1: imap<int, Campos>, s1: map<int, Concurso>, e2: imap<int, Campos>, s2: map<int, Concurso>, teto: int)
    requires ResumoConforme(e1, s1) && ResumoConforme(e2, s2)
    requires forall k :: k < teto ==> (k in s1 <==> k in s2) && (k in s1 ==> s1[k] == s2[k])
    ensures forall n :: n <= teto ==> n in e1 && n in e2 && e1[n] == e2[n]
  {
    forall n | n <= teto ensures n in e1 && n in e2 && e1[n] == e2[n] {
      var r1, r2 := ResumoPreConcurso(s1, n), ResumoPreConcurso(s2, n);
      assert n in e1 && n in e2 && e1[n] == r1 && e2[n] == r2;
      EntreLocal(s1, s2, n - LATEST_QTD, n - 1);
    }
  }

  /** The window holds at most the 50 draws before, all older than the draw, ascending. */
  lemma JanelaFacts(store: map<int, Concurso>, numero: int)
    requires Indexado(store)
    ensures var w := JanelaPreConcurso(store, numero);
      |w| <= LATEST_QTD && NumerosCrescentes(w) &&
      (forall i :: 0 <= i < |w| ==> numero - LATEST_QTD <= w[i].numero < numero) &&
      (forall k :: numero - LATEST_QTD <= k < numero && k in store ==> store[k] in w)
  {
    EntreFacts(store, numero - LATEST_QTD, numero - 1);
    var w := JanelaPreConcurso(store, numero);
    JanelaTamanho(store, numero - LATEST_QTD, numero - 1);
  }

  lemma {:induction false} JanelaTamanho(store: map<int, Concurso>, lo: int, hi: int)
    ensures |Entre(store, lo, hi)| <= if hi < lo then 0 else hi - lo + 1
    decreases hi - lo
  {
    if hi >= lo {
      JanelaTamanho(store, lo, hi - 1);
    }
  }

  /**
   * The numbers a draw records from a pre-draw report: ten of them when the window holds a
   * draw and none when it is empty, all in 1..25, none twice.
   */
  predicate TopDezDezenas(ds: seq<int>, w: seq<Concurso>) {
    |ds| == (if w == [] then 0 else TOP_ESTATISTICAS_QTD) && Distinct(ds) && forall d :: d in ds ==> InRange(d)
  }

  /** Both statistics a draw past number 50 records are ten distinct numbers of 1..25, or none for an empty window. */
  lemma EstatisticaTopDez(store: map<int, Concurso>, numero: int)
    ensures ResumoPreConcurso(store, numero).0.Some? && ResumoPreConcurso(store, numero).1.Some?
    ensures TopDezDezenas(ResumoPreConcurso(store, numero).0.value, JanelaPreConcurso(store, numero))
    ensures TopDezDezenas(ResumoPreConcurso(store, numero).1.value, JanelaPreConcurso(store, numero))
  {
    TopDezOcorrencias(JanelaPreConcurso(store, numero));
    TopDezAusentes(JanelaPreConcurso(store, numero));
  }

  /** The most drawn numbers of a report on `w`, cut to ten. */
  lemma TopDezOcorrencias(w: seq<Concurso>)
    ensures TopDezDezenas(Projetar(Estatisticas(w, TOP_ESTATISTICAS_QTD).maisSorteadas, Dezena), w)
  {
    if w != [] {
      var s := OcorrenciasPorDezena(w);
      var r := Estatisticas(w, TOP_ESTATISTICAS_QTD).maisSorteadas;
      assert r == Create(s, AusenciasPorDezena(w), [], [], |w|, TOP_ESTATISTICAS_QTD).maisSorteadas;
      OcorrenciasUmaPorDezena(w);
      NumerosDistintosDentro(r, s, Dezena);
    }
  }

  /** The most overdue numbers of a report on `w`, cut to ten. */
  lemma TopDezAusentes(w: seq<Concurso>)
    ensures TopDezDezenas(Projetar(Estatisticas(w, TOP_ESTATISTICAS_QTD).maisAusentes, DezenaDoAusente), w)
  {
    if w != [] {
      var s := AusenciasPorDezena(w);
      var r := Estatisticas(w, TOP_ESTATISTICAS_QTD).maisAusentes;
      assert r == Create(OcorrenciasPorDezena(w), s, [], [], |w|, TOP_ESTATISTICAS_QTD).maisAusentes;
      assert forall i :: 0 <= i < |s| ==> DezenaDoAusente(s[i]) == i + 1;
      NumerosDistintosDentro(r, s, DezenaDoAusente);
    }
  }

  /**
   * Entries drawn on a list whose `i`-th entry is number `i + 1` carry distinct numbers of 1..25.
   */
  lemma NumerosDistintosDentro<T>(r: seq<T>, s: seq<T>, dezena: T -> int)
    requires multiset(r) <= multiset(s) && |s| == MAIOR_DEZENA
    requires forall i :: 0 <= i < |s| ==> dezena(s[i]) == i + 1
    ensures Distinct(Projetar(r, dezena)) && forall d :: d in Projetar(r, dezena) ==> InRange(d)
  {
    SubMultisetDistinctKeys(r, s, dezena);
    var p := Projetar(r, dezena);
    forall d | d in p ensures InRange(d) {
      var i :| 0 <= i < |p| && p[i] == d;
      assert r[i] in multiset(s);
      var k :| 0 <= k < |s| && s[k] == r[i];
    }
  }
  // ---------------------------------------------------------------------------
  // Batches

  /** `for (i = 0; i < s.length; i += size) s.slice(i, i + size)`. */
  function Lotes<T>(s: seq<T>, size: nat): (r: seq<seq<T>>)
    requires size > 0
    ensures forall i :: 0 <= i < |r| ==> 0 < |r[i]| <= size
    decreases |s|
  {
    if s == [] then []
    else if |s| <= size then [s]
    else [s[..size]] + Lotes(s[size..], size)
  }

  function Concat<T>(ss: seq<seq<T>>): seq<T> {
    if ss == [] then [] else ss[0] + Concat(ss[1..])
  }

  /** The batches, laid end to end, are the downloaded list: every draw once, in order. */
  lemma {:induction false} LotesCobrem<T>(s: seq<T>, size: nat)
    requires size > 0
    ensures Concat(Lotes(s, size)) == s
    decreases |s|
  {
    if s != [] && |s| > size {
      LotesCobrem(s[size..], size);
      assert s == s[..size] + s[size..];
    }
  }

  /** The draws of a batch not yet stored, in batch order. */
  function Novos(cs: seq<Concurso>, keys: set<int>): (r: seq<Concurso>)
    ensures forall x :: x in r ==> x in cs && x.numero !in keys
  {
    if cs == [] then []
    else Novos(cs[..|cs| - 1], keys) + (if cs[|cs| - 1].numero !in keys then [cs[|cs| - 1]] else [])
  }

  lemma {:induction false} NovosNumeros(cs: seq<Concurso>, keys: set<int>)
    ensures keys + NumerosDe(Novos(cs, keys)) == keys + NumerosDe(cs)
  {
    if cs != [] {
      var front, last := cs[..|cs| - 1], cs[|cs| - 1];
      NovosNumeros(front, keys);
      assert cs == front + [last];
      assert NumerosDe(cs) == NumerosDe(front) + {last.numero};
      var extra := if last.numero !in keys then [last] else [];
      assert NumerosDe(Novos(front, keys) + extra) == NumerosDe(Novos(front, keys)) + NumerosDe(extra);
    }
  }

  lemma {:induction false} NovosDistintos(cs: seq<Concurso>, keys: set<int>)
    requires NumerosDistintos(cs)
    ensures NumerosDistintos(Novos(cs, keys))
  {
    if cs != [] {
      var front, last := cs[..|cs| - 1], cs[|cs| - 1];
      assert NumerosDistintos(front);
      NovosDistintos(front, keys);
      forall x | x in Novos(front, keys) ensures x.numero != last.numero {
        var j :| 0 <= j < |front| && front[j] == x;
        assert cs[j] == x;
      }
    }
  }

  // ---------------------------------------------------------------------------
  // The use case

  /** `totalNew`, `totalProcessed` and the final report. */
  datatype Resumo = Resumo(totalProcessed: int, totalNew: int, estatisticas: DezenasEstatisticas)

  /** The bulk insert refused a draw whose number was already taken. */
  datatype ErroIngestao = NumeroDuplicado

  /**
   * `execute()` over the draws `downloadHistoricalData` returned. On success every downloaded
   * number is stored, the stored draws are untouched, the added draws `novos` are downloaded
   * draws each stored under its number, `totalNew` counts them, each carries its comparison
   * with the previous draw, and the report is that of the 50 newest stored draws. The
   * statistics stored on each new draw are described for a downloaded list ascending by
   * number, the order the spreadsheet reader returns.
   */
  method Execute(concursoRepository: ConcursoRepository, concursos: seq<Concurso>)
    returns (r: Result<Resumo, ErroIngestao>, ghost novos: seq<Concurso>)
    requires concursoRepository.Valid()
    modifies concursoRepository, concursos
    ensures concursoRepository.Valid()
    ensures forall k :: k in old(concursoRepository.store) ==>
      k in concursoRepository.store && concursoRepository.store[k] == old(concursoRepository.store)[k]
    ensures forall c :: c in concursos && (c.numero in old(concursoRepository.store) || c.numero <= 1) ==>
      c.masAusentesAnterior == old(c.masAusentesAnterior) && c.repetidasAnterior == old(c.repetidasAnterior)
    ensures forall c :: c in concursos && (c.numero in old(concursoRepository.store) || c.numero <= LATEST_QTD) ==>
      c.estaticPreConcMaisOcorrencias == old(c.estaticPreConcMaisOcorrencias) &&
      c.estaticPreConcMaisAtrasadas == old(c.estaticPreConcMaisAtrasadas)
    ensures NumerosDistintos(concursos) ==> r.Success?
    ensures r.Success? ==>
      concursoRepository.store.Keys == old(concursoRepository.store).Keys + NumerosDe(concursos) &&
      r.value.totalProcessed == |concursos| &&
      r.value.totalNew == |novos| == |concursoRepository.store| - |old(concursoRepository.store)| &&
      r.value.estatisticas == Estatisticas(MaisRecentes(concursoRepository.store, LATEST_QTD), TOP_ESTATISTICAS_QTD)
    ensures r.Success? ==>
      NumerosDe(novos) == concursoRepository.store.Keys - old(concursoRepository.store).Keys &&
      forall x :: x in novos ==> x in concursos && x.numero in concursoRepository.store && concursoRepository.store[x.numero] == x
    ensures r.Success? ==> forall x :: x in novos && x.numero > 1 ==>
      (x.masAusentesAnterior, x.repetidasAnterior) == ComparacaoDe(concursos, old(concursoRepository.store), x)
    ensures r.Success? && NumerosCrescentes(concursos) ==> forall x :: x in novos && x.numero > LATEST_QTD ==>
      (x.estaticPreConcMaisOcorrencias, x.estaticPreConcMaisAtrasadas) == ResumoPreConcurso(concursoRepository.store, x.numero)
  {
    var ok, newConcursos;
    ghost var esperada, esperado;
    ok, newConcursos, novos, esperada, esperado := ProcessarTodos(concursoRepository, concursos);
    if !ok {
      return Failure(NumeroDuplicado), novos;
    }
    var latest := concursoRepository.FindLatest(LATEST_QTD);
    var estatisticas := Calcular(latest, TOP_ESTATISTICAS_QTD);
    r := Success(Resumo(|concursos|, newConcursos, estatisticas));
  }

  /**
   * The batch loop of `execute()`; `ok` is false when a `saveMany` threw. The comparisons are
   * those `esperada` gives against the repository as the run found it, the statistics those
   * `esperado` gives against the repository as the run leaves it.
   */
  method ProcessarTodos(concursoRepository: ConcursoRepository, concursos: seq<Concurso>)
    returns (ok: bool, newConcursos: int, ghost novos: seq<Concurso>,
             ghost esperada: imap<Concurso, Campos>, ghost esperado: imap<int, Campos>)
    requires concursoRepository.Valid()
    modifies concursoRepository, concursos
    ensures concursoRepository.Valid()
    ensures forall k :: k in old(concursoRepository.store) ==>
      k in concursoRepository.store && concursoRepository.store[k] == old(concursoRepository.store)[k]
    ensures forall c :: c in concursos && (c.numero in old(concursoRepository.store) || c.numero <= 1) ==>
      c.masAusentesAnterior == old(c.masAusentesAnterior) && c.repetidasAnterior == old(c.repetidasAnterior)
    ensures forall c :: c in concursos && (c.numero in old(concursoRepository.store) || c.numero <= LATEST_QTD) ==>
      c.estaticPreConcMaisOcorrencias == old(c.estaticPreConcMaisOcorrencias) &&
      c.estaticPreConcMaisAtrasadas == old(c.estaticPreConcMaisAtrasadas)
    ensures NumerosDistintos(concursos) ==> ok
    ensures ok ==>
      concursoRepository.store.Keys == old(concursoRepository.store).Keys + NumerosDe(concursos) &&
      newConcursos == |novos| == |concursoRepository.store| - |old(concursoRepository.store)|
    ensures ok ==>
      NumerosDe(novos) == concursoRepository.store.Keys - old(concursoRepository.store).Keys &&
      forall x :: x in novos ==> x in concursos && x.numero in concursoRepository.store && concursoRepository.store[x.numero] == x
    ensures ComparacaoConforme(esperada, concursos, old(concursoRepository.store))
    ensures ok ==> forall x :: x in novos ==> ComparacaoRegistrada(x, esperada)
    ensures ok && NumerosCrescentes(concursos) ==>
      ResumoConforme(esperado, concursoRepository.store) && forall x :: x in novos ==> EstatisticaRegistrada(x, esperado)
  {
    var repo := concursoRepository;
    ghost var s0 := repo.store;
    ExisteComparacao(concursos, s0);
    esperada :| ComparacaoConforme(esperada, concursos, s0);
    ExisteResumo(s0);
    esperado :| ResumoConforme(esperado, s0);
    newConcursos := 0;
    novos := [];
    ok := true;
    var i := 0;
    while i < |concursos|
      invariant repo.Valid()
      invariant Andamento(s0, repo.store, concursos, i, novos) && newConcursos == |novos|
      invariant forall x :: x in novos ==> ComparacaoRegistrada(x, esperada)
      invariant NumerosCrescentes(concursos) ==>
        ResumoConforme(esperado, repo.store) && forall x :: x in novos ==> EstatisticaRegistrada(x, esperado)
      invariant forall c :: c in concursos && (c.numero in s0 || c.numero <= 1) ==>
        c.masAusentesAnterior == old(c.masAusentesAnterior) && c.repetidasAnterior == old(c.repetidasAnterior)
      invariant forall c :: c in concursos && (c.numero in s0 || c.numero <= LATEST_QTD) ==>
        c.estaticPreConcMaisOcorrencias == old(c.estaticPreConcMaisOcorrencias) &&
        c.estaticPreConcMaisAtrasadas == old(c.estaticPreConcMaisAtrasadas)
      decreases |concursos| - i
    {
      var loteOk, fim, qtd, nb;
      ghost var esperadoLote;
      loteOk, fim, qtd, nb, esperadoLote := ProcessarPasso(repo, concursos, i, s0, novos, esperada, esperado);
      if !loteOk {
        ok := false;
        break;
      }
      esperado := esperadoLote;
      newConcursos := newConcursos + qtd;
      novos := novos + nb;
      i := fim;
    }
    if ok {
      assert concursos[..i] == concursos;
    }
  }

  /** The repository and the added draws after the batches before index `i`. */
  ghost predicate Andamento(s0: map<int, Concurso>, store: map<int, Concurso>, concursos: seq<Concurso>, i: int,
                            novos: seq<Concurso>)
  {
    0 <= i <= |concursos| &&
    store.Keys == s0.Keys + NumerosDe(concursos[..i]) &&
    (forall k :: k in s0 ==> k in store && store[k] == s0[k]) &&
    |novos| == |store| - |s0| &&
    NumerosDe(novos) == store.Keys - s0.Keys &&
    forall x :: x in novos ==> x in concursos && x.numero in store && store[x.numero] == x
  }

  /**
   * One pass of the batch loop: the batch from index `i`, processed by `ProcessarLote`. The
   * run's description `Andamento` moves from `i` to the batch's end, and the draws the batch
   * adds join `novos` with their comparison and, for an ascending download, their statistics.
   */
  method ProcessarPasso(concursoRepository: ConcursoRepository, concursos: seq<Concurso>, i: int,
                        ghost s0: map<int, Concurso>, ghost novos: seq<Concurso>,
                        ghost esperada: imap<Concurso, Campos>, ghost esperado: imap<int, Campos>)
    returns (ok: bool, fim: int, qtd: int, nb: seq<Concurso>, ghost esperadoLote: imap<int, Campos>)
    requires concursoRepository.Valid() && i < |concursos|
    requires Andamento(s0, concursoRepository.store, concursos, i, novos)
    requires ComparacaoConforme(esperada, concursos, s0)
    requires forall x :: x in novos ==> ComparacaoRegistrada(x, esperada)
    requires NumerosCrescentes(concursos) ==>
      ResumoConforme(esperado, concursoRepository.store) && forall x :: x in novos ==> EstatisticaRegistrada(x, esperado)
    modifies concursoRepository, concursos
    ensures concursoRepository.Valid()
    ensures fim == if i + BATCH_SIZE <= |concursos| then i + BATCH_SIZE else |concursos|
    ensures forall k :: k in s0 ==> k in concursoRepository.store && concursoRepository.store[k] == s0[k]
    ensures !ok ==> !NumerosDistintos(concursos)
    ensures ok ==> qtd == |nb| && Andamento(s0, concursoRepository.store, concursos, fim, novos + nb)
    ensures ok ==> forall x :: x in novos + nb ==> ComparacaoRegistrada(x, esperada)
    ensures ok && NumerosCrescentes(concursos) ==>
      ResumoConforme(esperadoLote, concursoRepository.store) &&
      forall x :: x in novos + nb ==> EstatisticaRegistrada(x, esperadoLote)
    ensures forall c :: c in concursos && (c.numero in s0 || c.numero <= 1) ==>
      c.masAusentesAnterior == old(c.masAusentesAnterior) && c.repetidasAnterior == old(c.repetidasAnterior)
    ensures forall c :: c in concursos && (c.numero in s0 || c.numero <= LATEST_QTD) ==>
      c.estaticPreConcMaisOcorrencias == old(c.estaticPreConcMaisOcorrencias) &&
      c.estaticPreConcMaisAtrasadas == old(c.estaticPreConcMaisAtrasadas)
  {
    var repo := concursoRepository;
    fim := if i + BATCH_SIZE <= |concursos| then i + BATCH_SIZE else |concursos|;
    var batch := concursos[i..fim];
    ghost var antes := repo.store;
    AntesDoLote(esperada, s0, antes, concursos, i, novos);
    ok, qtd, nb, esperadoLote := ProcessarLote(repo, batch, concursos, esperada);
    if !ok {
      LoteRecusado(antes, concursos, i, fim, nb);
    } else {
      PassoAceito(s0, antes, repo.store, concursos, i, fim, novos, nb);
      if NumerosCrescentes(concursos) {
        ResumoLocal(esperado, antes, esperadoLote, repo.store, concursos[i].numero);
      }
    }
  }

  /** Before a batch, the comparisons the run expects still hold against the current repository. */
  lemma AntesDoLote(esperada: imap<Concurso, Campos>, s0: map<int, Concurso>, antes: map<int, Concurso>,
                    concursos: seq<Concurso>, i: int, novos: seq<Concurso>)
    requires Andamento(s0, antes, concursos, i, novos) && ComparacaoConforme(esperada, concursos, s0)
    ensures ComparacaoConforme(esperada, concursos, antes)
  {
    BaseDaExecucao(s0, antes, concursos, i);
    ComparacaoOutraBase(esperada, concursos, s0, antes);
  }

  /** An accepted batch extends the progress of the run to the end of the batch. */
  lemma PassoAceito(s0: map<int, Concurso>, antes: map<int, Concurso>, depois: map<int, Concurso>,
                    concursos: seq<Concurso>, i: int, fim: int, novos: seq<Concurso>, nb: seq<Concurso>)
    requires 0 <= i < fim <= |concursos|
    requires Andamento(s0, antes, concursos, i, novos)
    requires nb == Novos(concursos[i..fim], antes.Keys)
    requires depois == InsertMany(antes, nb).0 && InsertMany(antes, nb).1
    ensures Andamento(s0, depois, concursos, fim, novos + nb)
    ensures NumerosCrescentes(concursos) ==>
      (forall x :: x in novos ==> x.numero <= concursos[i].numero) &&
      forall k :: k < concursos[i].numero ==> (k in antes <==> k in depois) && (k in antes ==> antes[k] == depois[k])
  {
    NovosAnteriores(s0, antes, concursos, i, novos);
    LoteChaves(s0, antes, depois, concursos, i, fim, nb);
    LoteNovos(s0, antes, depois, concursos, i, fim, novos, nb);
    if NumerosCrescentes(concursos) {
      LoteCrescente(antes, depois, concursos, i, fim, novos, nb);
    }
  }

  /** The draws added before a batch are downloaded draws, already stored. */
  lemma NovosAnteriores(s0: map<int, Concurso>, antes: map<int, Concurso>, concursos: seq<Concurso>, i: int,
                        novos: seq<Concurso>)
    requires Andamento(s0, antes, concursos, i, novos)
    ensures forall x :: x in novos ==> x in concursos && x.numero in antes && x.numero in NumerosDe(concursos[..i])
  {
    forall x | x in novos ensures x.numero in NumerosDe(concursos[..i]) {
      assert x.numero in NumerosDe(novos);
    }
  }

  /** A refused batch shows a repeated number in the download. */
  lemma LoteRecusado(antes: map<int, Concurso>, concursos: seq<Concurso>, i: int, fim: int, nb: seq<Concurso>)
    requires 0 <= i <= fim <= |concursos|
    requires nb == Novos(concursos[i..fim], antes.Keys)
    requires !InsertMany(antes, nb).1
    ensures !NumerosDistintos(concursos)
  {
    if NumerosDistintos(concursos) {
      var batch := concursos[i..fim];
      assert NumerosDistintos(batch) by {
        forall a, b | 0 <= a < b < |batch| ensures batch[a].numero != batch[b].numero {
          assert batch[a] == concursos[i + a] && batch[b] == concursos[i + b];
        }
      }
      NovosDistintos(batch, antes.Keys);
      InsertManyOk(antes, nb);
    }
  }

  /** Before a batch, the run has stored only downloaded numbers. */
  lemma BaseDaExecucao(s0: map<int, Concurso>, antes: map<int, Concurso>, concursos: seq<Concurso>, i: int)
    requires 0 <= i <= |concursos|
    requires antes.Keys == s0.Keys + NumerosDe(concursos[..i])
    requires forall k :: k in s0 ==> k in antes && antes[k] == s0[k]
    ensures MesmaBase(concursos, s0, antes)
  {
    assert forall k :: k in NumerosDe(concursos[..i]) ==> k in NumerosDe(concursos) by {
      forall k | k in NumerosDe(concursos[..i]) ensures k in NumerosDe(concursos) {
        var x :| x in concursos[..i] && x.numero == k;
      }
    }
  }

  /** A saved batch adds its downloaded numbers and keeps the stored draws. */
  lemma LoteChaves(s0: map<int, Concurso>, antes: map<int, Concurso>, depois: map<int, Concurso>,
                   concursos: seq<Concurso>, i: int, fim: int, nb: seq<Concurso>)
    requires 0 <= i <= fim <= |concursos|
    requires antes.Keys == s0.Keys + NumerosDe(concursos[..i])
    requires forall k :: k in s0 ==> k in antes && antes[k] == s0[k]
    requires nb == Novos(concursos[i..fim], antes.Keys)
    requires depois == InsertMany(antes, nb).0 && InsertMany(antes, nb).1
    ensures depois.Keys == s0.Keys + NumerosDe(concursos[..fim])
    ensures forall k :: k in s0 ==> k in depois && depois[k] == s0[k]
  {
    var batch := concursos[i..fim];
    assert concursos[..fim] == concursos[..i] + batch;
    NumerosDeConcat(concursos[..i], batch);
    NovosNumeros(batch, antes.Keys);
    UniaoEmPassos(depois.Keys, antes.Keys, NumerosDe(nb), NumerosDe(batch), s0.Keys,
                  NumerosDe(concursos[..i]), NumerosDe(concursos[..fim]));
  }

  lemma UniaoEmPassos<T>(depois: set<T>, antes: set<T>, novos: set<T>, lote: set<T>, base: set<T>,
                         prefixo: set<T>, total: set<T>)
    requires depois == antes + novos && antes + novos == antes + lote
    requires antes == base + prefixo && total == prefixo + lote
    ensures depois == base + total
  {
  }

  /** The draws a saved batch adds are downloaded draws stored under their numbers. */
  lemma LoteNovos(s0: map<int, Concurso>, antes: map<int, Concurso>, depois: map<int, Concurso>,
                  concursos: seq<Concurso>, i: int, fim: int, novos: seq<Concurso>, nb: seq<Concurso>)
    requires 0 <= i <= fim <= |concursos|
    requires s0.Keys <= antes.Keys
    requires |novos| == |antes| - |s0| && NumerosDe(novos) == antes.Keys - s0.Keys
    requires forall x :: x in novos ==> x in concursos && x.numero in antes && antes[x.numero] == x
    requires nb == Novos(concursos[i..fim], antes.Keys)
    requires depois == InsertMany(antes, nb).0 && InsertMany(antes, nb).1
    ensures |novos + nb| == |depois| - |s0| && NumerosDe(novos + nb) == depois.Keys - s0.Keys
    ensures forall x :: x in novos + nb ==> x in concursos && x.numero in depois && depois[x.numero] == x
  {
    LoteNovosNumeros(s0, antes, depois, concursos[i..fim], novos, nb);
    LoteGuardado(antes, depois, concursos, i, fim, nb);
    forall x | x in novos + nb ensures x in concursos && x.numero in depois && depois[x.numero] == x {
      if x !in novos {
        assert x in nb;
      }
    }
  }

  /** After a saved batch, each of its new draws is a downloaded draw stored under its own number. */
  lemma LoteGuardado(antes: map<int, Concurso>, depois: map<int, Concurso>,
                     concursos: seq<Concurso>, i: int, fim: int, nb: seq<Concurso>)
    requires 0 <= i <= fim <= |concursos|
    requires nb == Novos(concursos[i..fim], antes.Keys)
    requires depois == InsertMany(antes, nb).0 && InsertMany(antes, nb).1
    ensures forall x :: x in nb ==> x in concursos && x.numero in depois && depois[x.numero] == x
  {
    InsertManyGuarda(antes, nb);
    forall x | x in nb ensures x in concursos && x.numero in depois && depois[x.numero] == x {
      var j :| 0 <= j < |nb| && nb[j] == x;
      var k :| 0 <= k < fim - i && concursos[i..fim][k] == x;
      assert concursos[i + k] == x;
    }
  }

  /** The numbers and the count of the added draws, after a saved batch. */
  lemma LoteNovosNumeros(s0: map<int, Concurso>, antes: map<int, Concurso>, depois: map<int, Concurso>,
                         lote: seq<Concurso>, novos: seq<Concurso>, nb: seq<Concurso>)
    requires s0.Keys <= antes.Keys
    requires |novos| == |antes| - |s0| && NumerosDe(novos) == antes.Keys - s0.Keys
    requires nb == Novos(lote, antes.Keys)
    requires depois == InsertMany(antes, nb).0 && InsertMany(antes, nb).1
    ensures |novos + nb| == |depois| - |s0| && NumerosDe(novos + nb) == depois.Keys - s0.Keys
  {
    NumerosDeConcat(novos, nb);
    NovosForaDe(lote, antes.Keys);
    DiferencaEmPassos(depois.Keys, antes.Keys, NumerosDe(nb), s0.Keys, NumerosDe(novos), NumerosDe(novos + nb));
    InsertManyCardinality(antes, nb);
  }

  /** The numbers of the draws not yet stored are not stored. */
  lemma NovosForaDe(cs: seq<Concurso>, keys: set<int>)
    ensures NumerosDe(Novos(cs, keys)) * keys == {}
  {
    forall k | k in NumerosDe(Novos(cs, keys)) ensures k !in keys {
      var x :| x in Novos(cs, keys) && x.numero == k;
    }
  }

  lemma DiferencaEmPassos<T>(depois: set<T>, antes: set<T>, novos: set<T>, base: set<T>, anteriores: set<T>,
                             todos: set<T>)
    requires depois == antes + novos && novos * antes == {} && base <= antes
    requires anteriores == antes - base && todos == anteriores + novos
    ensures todos == depois - base
  {
    forall x ensures x in todos <==> x in depois - base {
      if x in novos {
        assert x !in novos * antes;
      }
    }
  }

  /**
   * For an ascending download, the draws added so far are numbered at most the batch's first
   * number, and the batch adds only numbers from its first one on.
   */
  lemma LoteCrescente(antes: map<int, Concurso>, depois: map<int, Concurso>,
                      concursos: seq<Concurso>, i: int, fim: int, novos: seq<Concurso>, nb: seq<Concurso>)
    requires 0 <= i < fim <= |concursos| && NumerosCrescentes(concursos)
    requires forall x :: x in novos ==> x.numero in NumerosDe(concursos[..i])
    requires nb == Novos(concursos[i..fim], antes.Keys)
    requires depois == InsertMany(antes, nb).0 && InsertMany(antes, nb).1
    ensures forall x :: x in novos ==> x.numero <= concursos[i].numero
    ensures forall k :: k < concursos[i].numero ==> (k in antes <==> k in depois) && (k in antes ==> antes[k] == depois[k])
  {
    AnterioresAbaixo(concursos, i, novos);
    LoteAcima(concursos, i, fim, antes.Keys, nb);
    forall k | k in depois && k !in antes ensures k >= concursos[i].numero {
      var x :| x in nb && x.numero == k;
    }
  }

  /** In an ascending download, the draws taken from before index `i` are numbered below `concursos[i]`. */
  lemma AnterioresAbaixo(concursos: seq<Concurso>, i: int, novos: seq<Concurso>)
    requires 0 <= i < |concursos| && NumerosCrescentes(concursos)
    requires forall x :: x in novos ==> x.numero in NumerosDe(concursos[..i])
    ensures forall x :: x in novos ==> x.numero < concursos[i].numero
  {
    forall x | x in novos ensures x.numero < concursos[i].numero {
      var c :| c in concursos[..i] && c.numero == x.numero;
      var j :| 0 <= j < i && concursos[..i][j] == c;
    }
  }

  /** In an ascending download, the new draws of the batch from index `i` are numbered from `concursos[i]` on. */
  lemma LoteAcima(concursos: seq<Concurso>, i: int, fim: int, keys: set<int>, nb: seq<Concurso>)
    requires 0 <= i < fim <= |concursos| && NumerosCrescentes(concursos)
    requires nb == Novos(concursos[i..fim], keys)
    ensures forall x :: x in nb ==> x.numero >= concursos[i].numero
  {
    var batch := concursos[i..fim];
    forall x | x in nb ensures x.numero >= concursos[i].numero {
      var j :| 0 <= j < |batch| && batch[j] == x;
      assert concursos[i + j] == x;
    }
  }

  /**
   * One batch: the `exists` check and the comparison per draw, `saveMany` of the new draws
   * `nb`, then the pre-draw statistics of each new draw past number 50, those `esperado`
   * gives against the repository after the save. `ok` is false when `saveMany` refused a
   * draw; the statistics are then not computed, as the call throws.
   */
  method ProcessarLote(concursoRepository: ConcursoRepository, lote: seq<Concurso>, concursos: seq<Concurso>,
                       ghost esperada: imap<Concurso, Campos>)
    returns (ok: bool, novos: nat, nb: seq<Concurso>, ghost esperado: imap<int, Campos>)
    requires concursoRepository.Valid()
    requires ComparacaoConforme(esperada, concursos, concursoRepository.store)
    requires forall c :: c in lote ==> c in concursos
    modifies concursoRepository, concursos
    ensures concursoRepository.Valid()
    ensures nb == Novos(lote, old(concursoRepository.store).Keys) && novos == |nb|
    ensures concursoRepository.store == InsertMany(old(concursoRepository.store), nb).0
    ensures ok == InsertMany(old(concursoRepository.store), nb).1
    ensures forall x :: x in nb ==> ComparacaoRegistrada(x, esperada)
    ensures ok ==> ResumoConforme(esperado, concursoRepository.store) && forall x :: x in nb ==> EstatisticaRegistrada(x, esperado)
    ensures forall c :: c in concursos && (c.numero in old(concursoRepository.store) || c.numero <= 1) ==>
      c.masAusentesAnterior == old(c.masAusentesAnterior) && c.repetidasAnterior == old(c.repetidasAnterior)
    ensures forall c :: c in concursos && (c.numero in old(concursoRepository.store) || c.numero <= LATEST_QTD) ==>
      c.estaticPreConcMaisOcorrencias == old(c.estaticPreConcMaisOcorrencias) &&
      c.estaticPreConcMaisAtrasadas == old(c.estaticPreConcMaisAtrasadas)
  {
    nb := PrepararLote(concursoRepository, lote, concursos, esperada);
    novos := |nb|;
    ok, esperado := SalvarLote(concursoRepository, nb);
  }

  /**
   * `if (newBatch.length > 0)`: `saveMany` of the new draws, then their pre-draw statistics,
   * those `esperado` gives against the repository after the save.
   */
  method SalvarLote(concursoRepository: ConcursoRepository, nb: seq<Concurso>)
    returns (ok: bool, ghost esperado: imap<int, Campos>)
    requires concursoRepository.Valid()
    modifies concursoRepository, set x | x in nb
    ensures concursoRepository.Valid()
    ensures concursoRepository.store == InsertMany(old(concursoRepository.store), nb).0
    ensures ok == InsertMany(old(concursoRepository.store), nb).1
    ensures ok ==> ResumoConforme(esperado, concursoRepository.store) && forall x :: x in nb ==> EstatisticaRegistrada(x, esperado)
    ensures forall x :: x in nb ==>
      x.masAusentesAnterior == old(x.masAusentesAnterior) && x.repetidasAnterior == old(x.repetidasAnterior)
    ensures forall x :: x in nb && x.numero <= LATEST_QTD ==>
      x.estaticPreConcMaisOcorrencias == old(x.estaticPreConcMaisOcorrencias) &&
      x.estaticPreConcMaisAtrasadas == old(x.estaticPreConcMaisAtrasadas)
  {
    if |nb| == 0 {
      ok := true;
    } else {
      ok := concursoRepository.SaveMany(nb);
    }
    ExisteResumo(concursoRepository.store);
    esperado :| ResumoConforme(esperado, concursoRepository.store);
    if ok && |nb| > 0 {
      InsertManyGuarda(old(concursoRepository.store), nb);
      EstatisticasDoLote(concursoRepository, nb, esperado);
    }
  }

  /** The per-draw part of a batch: the `exists` check, then the comparison with the previous draw. */
  method PrepararLote(concursoRepository: ConcursoRepository, lote: seq<Concurso>, concursos: seq<Concurso>,
                      ghost esperada: imap<Concurso, Campos>)
    returns (newBatch: seq<Concurso>)
    requires ComparacaoConforme(esperada, concursos, concursoRepository.store)
    requires forall c :: c in lote ==> c in concursos
    modifies set c | c in lote
    ensures newBatch == Novos(lote, concursoRepository.store.Keys)
    ensures forall x :: x in newBatch ==> ComparacaoRegistrada(x, esperada)
    ensures forall c :: c in lote && (c.numero in concursoRepository.store || c.numero <= 1) ==>
      c.masAusentesAnterior == old(c.masAusentesAnterior) && c.repetidasAnterior == old(c.repetidasAnterior)
    ensures forall c :: c in lote ==>
      c.estaticPreConcMaisOcorrencias == old(c.estaticPreConcMaisOcorrencias) &&
      c.estaticPreConcMaisAtrasadas == old(c.estaticPreConcMaisAtrasadas)
  {
    var repo := concursoRepository;
    newBatch := [];
    var j := 0;
    while j < |lote|
      invariant 0 <= j <= |lote|
      invariant newBatch == Novos(lote[..j], repo.store.Keys)
      invariant forall x :: x in newBatch ==> ComparacaoRegistrada(x, esperada)
      invariant forall c :: c in lote && (c.numero in repo.store || c.numero <= 1) ==>
        CamposDeComparacao(c) == old(CamposDeComparacao(c))
      invariant forall c :: c in lote ==> CamposDeEstatistica(c) == old(CamposDeEstatistica(c))
    {
      var concurso := lote[j];
      assert lote[..j + 1][..j] == lote[..j];
      var existe := repo.Exists(concurso.numero);
      if !existe {
        CompararComAnterior(repo, concurso, concursos, esperada);
        newBatch := newBatch + [concurso];
      }
      j := j + 1;
    }
    assert lote[..j] == lote;
  }

  /** The two comparison fields of a draw. */
  function CamposDeComparacao(c: Concurso): (Option<seq<int>>, Option<seq<int>>)
    reads c
  {
    (c.masAusentesAnterior, c.repetidasAnterior)
  }

  /** The two statistics fields of a draw. */
  function CamposDeEstatistica(c: Concurso): (Option<seq<int>>, Option<seq<int>>)
    reads c
  {
    (c.estaticPreConcMaisOcorrencias, c.estaticPreConcMaisAtrasadas)
  }

  /**
   * `concursos.find(...)` for the previous number, else `findByNumero`, then the two
   * comparison fields; a draw numbered 1 or less is left as it is.
   */
  method CompararComAnterior(concursoRepository: ConcursoRepository, concurso: Concurso, concursos: seq<Concurso>,
                             ghost esperada: imap<Concurso, Campos>)
    requires concurso in concursos && ComparacaoConforme(esperada, concursos, concursoRepository.store)
    modifies concurso
    ensures ComparacaoRegistrada(concurso, esperada)
    ensures concurso.estaticPreConcMaisOcorrencias == old(concurso.estaticPreConcMaisOcorrencias)
    ensures concurso.estaticPreConcMaisAtrasadas == old(concurso.estaticPreConcMaisAtrasadas)
    ensures concurso.numero <= 1 ==>
      concurso.masAusentesAnterior == old(concurso.masAusentesAnterior) &&
      concurso.repetidasAnterior == old(concurso.repetidasAnterior)
  {
    if concurso.numero > 1 {
      var anterior := Procurar(concursos, concurso.numero - 1);
      if anterior.None? {
        anterior := concursoRepository.FindByNumero(concurso.numero - 1);
      }
      concurso.SetMasAusentesAnterior(SorteadasMasAusentes(concurso, anterior));
      concurso.SetRepetidasAnterior(SorteadasERepetidas(concurso, anterior));
      assert (concurso.masAusentesAnterior, concurso.repetidasAnterior) == ComparacaoDe(concursos, concursoRepository.store, concurso);
    }
  }

  /** The statistics part of a batch, once its new draws are stored. */
  method EstatisticasDoLote(concursoRepository: ConcursoRepository, newBatch: seq<Concurso>, ghost esperado: imap<int, Campos>)
    requires forall i :: 0 <= i < |newBatch| ==>
      newBatch[i].numero in concursoRepository.store && concursoRepository.store[newBatch[i].numero] == newBatch[i]
    requires ResumoConforme(esperado, concursoRepository.store)
    modifies concursoRepository, set x | x in newBatch
    ensures concursoRepository.store == old(concursoRepository.store)
    ensures forall x :: x in newBatch ==> EstatisticaRegistrada(x, esperado)
    ensures forall x :: x in newBatch ==>
      x.masAusentesAnterior == old(x.masAusentesAnterior) && x.repetidasAnterior == old(x.repetidasAnterior)
    ensures forall x :: x in newBatch && x.numero <= LATEST_QTD ==>
      x.estaticPreConcMaisOcorrencias == old(x.estaticPreConcMaisOcorrencias) &&
      x.estaticPreConcMaisAtrasadas == old(x.estaticPreConcMaisAtrasadas)
  {
    var j := 0;
    while j < |newBatch|
      invariant 0 <= j <= |newBatch|
      invariant concursoRepository.store == old(concursoRepository.store)
      invariant forall i :: 0 <= i < j ==> EstatisticaRegistrada(newBatch[i], esperado)
      invariant forall x :: x in newBatch ==>
        x.masAusentesAnterior == old(x.masAusentesAnterior) && x.repetidasAnterior == old(x.repetidasAnterior)
      invariant forall x :: x in newBatch && x.numero <= LATEST_QTD ==>
        x.estaticPreConcMaisOcorrencias == old(x.estaticPreConcMaisOcorrencias) &&
        x.estaticPreConcMaisAtrasadas == old(x.estaticPreConcMaisAtrasadas)
    {
      RegistrarEstatisticas(concursoRepository, newBatch[j], esperado);
      j := j + 1;
    }
  }

  /** The statistics of one stored draw past number 50: computed, set on the draw, saved back. */
  method RegistrarEstatisticas(concursoRepository: ConcursoRepository, concurso: Concurso, ghost esperado: imap<int, Campos>)
    requires concurso.numero in concursoRepository.store && concursoRepository.store[concurso.numero] == concurso
    requires ResumoConforme(esperado, concursoRepository.store)
    modifies concursoRepository, concurso
    ensures concursoRepository.store == old(concursoRepository.store)
    ensures EstatisticaRegistrada(concurso, esperado)
    ensures concurso.masAusentesAnterior == old(concurso.masAusentesAnterior)
    ensures concurso.repetidasAnterior == old(concurso.repetidasAnterior)
    ensures concurso.numero <= LATEST_QTD ==>
      concurso.estaticPreConcMaisOcorrencias == old(concurso.estaticPreConcMaisOcorrencias) &&
      concurso.estaticPreConcMaisAtrasadas == old(concurso.estaticPreConcMaisAtrasadas)
  {
    if concurso.numero > LATEST_QTD {
      var maisOcorrencias, maisAtrasadas := EstatisticasPreConcurso(concursoRepository, concurso.numero);
      GravarEstatisticas(concursoRepository, concurso, maisOcorrencias, maisAtrasadas);
    }
  }

  /**
   * `findBetweenNumeros(numero - 50, numero - 1)`, then `calcular(latest, 10)`, reduced to the
   * numbers of the two ranked lists.
   */
  method EstatisticasPreConcurso(concursoRepository: ConcursoRepository, numero: int)
    returns (maisOcorrencias: seq<int>, maisAtrasadas: seq<int>)
    ensures (Some(maisOcorrencias), Some(maisAtrasadas)) == ResumoPreConcurso(concursoRepository.store, numero)
  {
    var latest := concursoRepository.FindBetweenNumeros(numero - LATEST_QTD, numero - 1);
    var estatisticas := Calcular(latest, TOP_ESTATISTICAS_QTD);
    maisOcorrencias := Projetar(estatisticas.maisSorteadas, Dezena);
    maisAtrasadas := Projetar(estatisticas.maisAusentes, DezenaDoAusente);
  }

  /** The two assignments of the statistics fields, then `update(concurso.numero, concurso)`. */
  method GravarEstatisticas(concursoRepository: ConcursoRepository, concurso: Concurso,
                            maisOcorrencias: seq<int>, maisAtrasadas: seq<int>)
    requires concurso.numero in concursoRepository.store && concursoRepository.store[concurso.numero] == concurso
    modifies concursoRepository, concurso
    ensures concursoRepository.store == old(concursoRepository.store)
    ensures concurso.estaticPreConcMaisOcorrencias == Some(maisOcorrencias)
    ensures concurso.estaticPreConcMaisAtrasadas == Some(maisAtrasadas)
    ensures concurso.masAusentesAnterior == old(concurso.masAusentesAnterior)
    ensures concurso.repetidasAnterior == old(concurso.repetidasAnterior)
  {
    concurso.estaticPreConcMaisOcorrencias := Some(maisOcorrencias);
    concurso.estaticPreConcMaisAtrasadas := Some(maisAtrasadas);
    assert concursoRepository.store[concurso.numero := concurso] == concursoRepository.store;
    concursoRepository.Update(concurso.numero, concurso);
  }
}
