/**
 * The statistics service (`DezenasEstatisticasService.calcular`): over a window of draws
 * it counts how often each number 1..25 was drawn, and for each number how many draws,
 * newest first, went by without it. The report is built with the six-argument
 * `DezenasEstatisticas.create`, the run-length lists empty.
 */
module EstatisticasService {
  import opened Wrappers
  import opened StableSort
  import opened ConcursoEntity
  import opened EstatisticasValue

  // ---------------------------------------------------------------------------
  // What the service computes, as functions of the window

  /** The test "this draw drew `d`". */
  function Contem(d: int): Concurso -> bool {
    (c: Concurso) => d in c.dezenas
  }

  /** The number of draws of the window that drew `d`. */
  function Aparicoes(w: seq<Concurso>, d: int): nat {
    Count(w, Contem(d))
  }

  /** One frequency entry per number of `ds`, in the order of `ds`. */
  function Entradas(w: seq<Concurso>, ds: seq<int>): seq<DezenaOcorrencia> {
    seq(|ds|, i requires 0 <= i < |ds| => DezenaOcorrencia(ds[i], Aparicoes(w, ds[i])))
  }

  /** The list built from the `ocorrencias` Map: its keys in insertion order, 1..25. */
  function OcorrenciasPorDezena(w: seq<Concurso>): seq<DezenaOcorrencia> {
    Entradas(w, TodasDezenas)
  }

  function Numero(c: Concurso): int {
    c.numero
  }

  /**
   * The scan of `d` over draws newest first: the draws before the first one that drew `d`,
   * and that draw's number (`None` when no draw drew it). The result is the first index at
   * which `d` was drawn.
   */
  function Ausencia(os: seq<Concurso>, d: int): (a: DezenaAusente)
    ensures a.dezena == d
    ensures 0 <= a.concursosSemSair <= |os|
    ensures a.ultimoConcurso.None? <==> a.concursosSemSair == |os|
    ensures forall j :: 0 <= j < a.concursosSemSair ==> d !in os[j].dezenas
    ensures a.concursosSemSair < |os| ==>
      d in os[a.concursosSemSair].dezenas && a.ultimoConcurso == Some(os[a.concursosSemSair].numero)
    decreases |os|
  {
    if os == [] then DezenaAusente(d, 0, None)
    else if os[0].ContainsDezena(d) then DezenaAusente(d, 0, Some(os[0].numero))
    else
      var a := Ausencia(os[1..], d);
      DezenaAusente(d, a.concursosSemSair + 1, a.ultimoConcurso)
  }

  /** `[...concursos].sort((a, b) => b.numero - a.numero)`: newest first. */
  function MaisRecentesPrimeiro(w: seq<Concurso>): (r: seq<Concurso>)
    ensures multiset(r) == multiset(w) && |r| == |w|
    ensures SortedDesc(r, Numero)
  {
    SortDesc(w, Numero)
  }

  /** The absence list: one entry per number 1..25, ascending. */
  function AusenciasPorDezena(w: seq<Concurso>): (r: seq<DezenaAusente>)
    ensures |r| == MAIOR_DEZENA
    ensures forall i :: 0 <= i < |r| ==> r[i] == Ausencia(MaisRecentesPrimeiro(w), i + 1)
  {
    AusenciasDe(MaisRecentesPrimeiro(w), Faixa(1, MAIOR_DEZENA + 1))
  }

  /** The numbers `a`, `a + 1`, ..., `b - 1`. */
  function Faixa(a: int, b: int): (r: seq<int>)
    requires a <= b
    ensures |r| == b - a
    ensures forall i :: 0 <= i < |r| ==> r[i] == a + i
    decreases b - a
  {
    if a == b then [] else [a] + Faixa(a + 1, b)
  }

  /** The absence entry of each number of `ds` over the draws `os`, newest first. */
  function AusenciasDe(os: seq<Concurso>, ds: seq<int>): (r: seq<DezenaAusente>)
    ensures |r| == |ds|
    ensures forall i :: 0 <= i < |r| ==> r[i] == Ausencia(os, ds[i])
  {
    if ds == [] then [] else [Ausencia(os, ds[0])] + AusenciasDe(os, ds[1..])
  }

  /** The report `calcular` is meant to return: the six-argument `create`, run-length lists empty. */
  function Estatisticas(w: seq<Concurso>, qtdToSlice: int): (r: DezenasEstatisticas)
    ensures r.totalConcursosAnalisados == |w|
    ensures r.maioresSequencias == [] && r.maioresSequenciasAusente == []
    ensures w == [] ==> r.maisSorteadas == [] && r.maisAusentes == []
  {
    if |w| == 0 then Create([], [], [], [], 0, qtdToSlice)
    else Create(OcorrenciasPorDezena(w), AusenciasPorDezena(w), [], [], |w|, qtdToSlice)
  }

  // ---------------------------------------------------------------------------
  // The service

  /** `calcular`: a Map of counters filled in nested loops, then a scan with `break` per number. */
  method Calcular(concursos: seq<Concurso>, qtdToSlice: int := QTD_TOP_PADRAO) returns (r: DezenasEstatisticas)
    ensures r == Estatisticas(concursos, qtdToSlice)
  {
    if |concursos| == 0 {
      return Create([], [], [], [], 0, qtdToSlice);
    }
    var ocorrencias := ContarOcorrencias(concursos);
    var maisSorteadas := ListarOcorrencias(concursos, ocorrencias);
    var maisAusentes := ListarAusencias(concursos);
    r := Create(maisSorteadas, maisAusentes, [], [], |concursos|, qtdToSlice);
  }

  /** `Array.from(ocorrencias.entries())`: a Map iterates in insertion order, 1..25. */
  method ListarOcorrencias(concursos: seq<Concurso>, ocorrencias: map<int, int>) returns (maisSorteadas: seq<DezenaOcorrencia>)
    requires forall d :: d in ocorrencias <==> InRange(d)
    requires forall d :: d in ocorrencias ==> ocorrencias[d] == Aparicoes(concursos, d)
    ensures maisSorteadas == OcorrenciasPorDezena(concursos)
  {
    maisSorteadas := [];
    var dezena := 1;
    while dezena <= MAIOR_DEZENA
      invariant 1 <= dezena <= MAIOR_DEZENA + 1
      invariant |maisSorteadas| == dezena - 1
      invariant forall k :: 0 <= k < |maisSorteadas| ==>
        maisSorteadas[k] == DezenaOcorrencia(k + 1, Aparicoes(concursos, k + 1))
    {
      maisSorteadas := maisSorteadas + [DezenaOcorrencia(dezena, ocorrencias[dezena])];
      dezena := dezena + 1;
    }
    TodasDezenasValores();
  }

  /** The absence loop of `calcular`: the draws newest first, then one scan per number 1..25. */
  method ListarAusencias(concursos: seq<Concurso>) returns (maisAusentes: seq<DezenaAusente>)
    ensures maisAusentes == AusenciasPorDezena(concursos)
  {
    ghost var esperado := AusenciasPorDezena(concursos);
    maisAusentes := [];
    var concursosOrdenados := MaisRecentesPrimeiro(concursos);
    var dezena := 1;
    while dezena <= MAIOR_DEZENA
      invariant 1 <= dezena <= MAIOR_DEZENA + 1
      invariant maisAusentes == esperado[..dezena - 1]
    {
      var ausente := VarrerAusencia(concursosOrdenados, dezena);
      PrefixoCresce(esperado, dezena - 1);
      maisAusentes := maisAusentes + [ausente];
      dezena := dezena + 1;
    }
    assert esperado[..MAIOR_DEZENA] == esperado;
  }

  /** Taking one more element of a sequence appends that element. */
  lemma PrefixoCresce<T>(s: seq<T>, n: nat)
    requires n < |s|
    ensures s[..n + 1] == s[..n] + [s[n]]
  {
  }

  /** The counting part of `calcular`: every number 1..25 starts at 0, then each draw adds 1 to its numbers. */
  method ContarOcorrencias(concursos: seq<Concurso>) returns (ocorrencias: map<int, int>)
    ensures forall d :: d in ocorrencias <==> InRange(d)
    ensures forall d :: d in ocorrencias ==> ocorrencias[d] == Aparicoes(concursos, d)
  {
    ocorrencias := map[];
    var dezena := 1;
    while dezena <= MAIOR_DEZENA
      invariant 1 <= dezena <= MAIOR_DEZENA + 1
      invariant forall d :: d in ocorrencias <==> 1 <= d < dezena
      invariant forall d :: d in ocorrencias ==> ocorrencias[d] == 0
    {
      ocorrencias := ocorrencias[dezena := 0];
      dezena := dezena + 1;
    }

    var i := 0;
    while i < |concursos|
      invariant 0 <= i <= |concursos|
      invariant forall d :: d in ocorrencias <==> InRange(d)
      invariant forall d :: d in ocorrencias ==> ocorrencias[d] == Aparicoes(concursos[..i], d)
    {
      var ds := concursos[i].DezenasOrdenadas();
      var j := 0;
      while j < |ds|
        invariant 0 <= j <= |ds|
        invariant forall d :: d in ocorrencias <==> InRange(d)
        invariant forall d :: d in ocorrencias ==>
          ocorrencias[d] == Aparicoes(concursos[..i], d) + (if d in ds[..j] then 1 else 0)
      {
        assert ds[j] in concursos[i].dezenas;
        assert ds[..j + 1] == ds[..j] + [ds[j]];
        assert ds[j] !in ds[..j];
        // `ocorrencias.get(dezena) || 0`
        var count := if ds[j] in ocorrencias then ocorrencias[ds[j]] else 0;
        ocorrencias := ocorrencias[ds[j] := count + 1];
        j := j + 1;
      }
      assert ds[..j] == ds;
      forall d ensures Aparicoes(concursos[..i + 1], d) == Aparicoes(concursos[..i], d) + (if d in ds then 1 else 0) {
        AparicoesSnoc(concursos[..i], concursos[i], d);
        assert concursos[..i + 1] == concursos[..i] + [concursos[i]];
      }
      i := i + 1;
    }
    assert concursos[..i] == concursos;
  }

  /** The inner scan of `calcular` for one number: count draws until one contains it, then `break`. */
  method VarrerAusencia(concursosOrdenados: seq<Concurso>, dezena: int) returns (a: DezenaAusente)
    ensures a == Ausencia(concursosOrdenados, dezena)
  {
    var concursosSemSair := 0;
    var ultimoConcurso: Option<int> := None;
    var k := 0;
    while k < |concursosOrdenados|
      invariant 0 <= k <= |concursosOrdenados|
      invariant concursosSemSair == k && ultimoConcurso == None
      invariant Ausencia(concursosOrdenados, dezena)
             == Deslocada(Ausencia(concursosOrdenados[k..], dezena), k)
    {
      if concursosOrdenados[k].ContainsDezena(dezena) {
        ultimoConcurso := Some(concursosOrdenados[k].numero);
        break;
      }
      assert concursosOrdenados[k..][1..] == concursosOrdenados[k + 1..];
      concursosSemSair := concursosSemSair + 1;
      k := k + 1;
    }
    a := DezenaAusente(dezena, concursosSemSair, ultimoConcurso);
  }

  /** An absence entry seen `k` draws later in the scan. */
  function Deslocada(a: DezenaAusente, k: int): DezenaAusente {
    DezenaAusente(a.dezena, a.concursosSemSair + k, a.ultimoConcurso)
  }

  lemma AparicoesSnoc(w: seq<Concurso>, c: Concurso, d: int)
    ensures Aparicoes(w + [c], d) == Aparicoes(w, d) + (if d in c.dezenas then 1 else 0)
  {
    CountAppend(w, [c], Contem(d));
  }

  lemma TodasDezenasValores()
    ensures forall i :: 0 <= i < |TodasDezenas| ==> TodasDezenas[i] == i + 1
  {
  }

  // ---------------------------------------------------------------------------
  // Frequencies

  /** Before ranking there are 25 frequency entries, one per number 1..25, ascending. */
  lemma {:induction false} OcorrenciasUmaPorDezena(w: seq<Concurso>)
    ensures |OcorrenciasPorDezena(w)| == MAIOR_DEZENA
    ensures forall i :: 0 <= i < MAIOR_DEZENA ==> OcorrenciasPorDezena(w)[i].dezena == i + 1
    ensures forall i, j :: 0 <= i < j < MAIOR_DEZENA ==>
      OcorrenciasPorDezena(w)[i].dezena < OcorrenciasPorDezena(w)[j].dezena
    ensures forall i :: 0 <= i < MAIOR_DEZENA ==> OcorrenciasPorDezena(w)[i].ocorrencias <= |w|
  {
    TodasDezenasValores();
  }

  /** The empty window counts nothing. */
  lemma {:induction false} AparicoesVazia(d: int)
    ensures Aparicoes([], d) == 0
  {
  }

  /** The sum of the `ocorrencias` fields of a list. */
  function SomaOcorrencias(s: seq<DezenaOcorrencia>): int {
    if s == [] then 0 else s[0].ocorrencias + SomaOcorrencias(s[1..])
  }

  /** `x => x in s`. */
  function Pertence(s: seq<int>): int -> bool {
    x => x in s
  }

  lemma {:induction false} SomaEntradasVazia(ds: seq<int>)
    ensures SomaOcorrencias(Entradas([], ds)) == 0
  {
    if ds != [] {
      assert Entradas([], ds)[1..] == Entradas([], ds[1..]);
      SomaEntradasVazia(ds[1..]);
    }
  }

  /** Summing the frequencies draw by draw: the first draw contributes the numbers of `ds` it drew. */
  lemma {:induction false} SomaEntradasSplit(w: seq<Concurso>, ds: seq<int>)
    requires w != []
    ensures SomaOcorrencias(Entradas(w, ds))
         == Count(ds, Pertence(w[0].dezenas)) + SomaOcorrencias(Entradas(w[1..], ds))
  {
    if ds != [] {
      assert Entradas(w, ds)[1..] == Entradas(w, ds[1..]);
      assert Entradas(w[1..], ds)[1..] == Entradas(w[1..], ds[1..]);
      SomaEntradasSplit(w, ds[1..]);
    }
  }

  /** Counting the members of `s` along a duplicate-free `all` gives the size of the intersection. */
  lemma {:induction false} CountPertence(all: seq<int>, s: seq<int>)
    requires Distinct(all)
    ensures Count(all, Pertence(s)) == |ElementSet(all) * ElementSet(s)|
  {
    if all != [] {
      var x, tail := all[0], all[1..];
      assert Distinct(tail);
      CountPertence(tail, s);
      assert x !in tail;
      assert Count(all, Pertence(s)) == (if x in s then 1 else 0) + Count(tail, Pertence(s));
      assert all == [x] + tail;
      InterPrimeiro(x, tail, s);
    }
  }

  lemma InterPrimeiro(x: int, tail: seq<int>, s: seq<int>)
    requires x !in tail
    ensures |ElementSet([x] + tail) * ElementSet(s)| == (if x in s then 1 else 0) + |ElementSet(tail) * ElementSet(s)|
  {
    var inter, interTail := ElementSet([x] + tail) * ElementSet(s), ElementSet(tail) * ElementSet(s);
    assert ElementSet([x] + tail) == {x} + ElementSet(tail);
    if x in s {
      assert inter == interTail + {x};
      assert x !in interTail;
    } else {
      assert inter == interTail;
    }
  }

  /** Counting along a duplicate-free `all` the members of a duplicate-free `s` it holds gives `|s|`. */
  lemma ContagemContida(all: seq<int>, s: seq<int>)
    requires Distinct(all) && Distinct(s) && forall x :: x in s ==> x in all
    ensures Count(all, Pertence(s)) == |s|
  {
    CountPertence(all, s);
    assert ElementSet(all) * ElementSet(s) == ElementSet(s);
    DistinctCardinality(s);
  }

  /** Each draw contributes exactly 15 to the frequencies over 1..25. */
  lemma ContribuicaoDeUmConcurso(c: Concurso)
    ensures Count(TodasDezenas, Pertence(c.dezenas)) == DEZENAS_POR_CONCURSO
  {
    TodasDezenasFacts();
    StrictlyAscendingIsDistinct(TodasDezenas);
    ContagemContida(TodasDezenas, c.dezenas);
  }

  /** When every draw contributes 15 along `ds`, the frequencies along `ds` add up to 15 per draw. */
  lemma {:induction false} SomaPorConcurso(w: seq<Concurso>, ds: seq<int>)
    requires forall c :: c in w ==> Count(ds, Pertence(c.dezenas)) == DEZENAS_POR_CONCURSO
    ensures SomaOcorrencias(Entradas(w, ds)) == DEZENAS_POR_CONCURSO * |w|
  {
    if w == [] {
      SomaEntradasVazia(ds);
    } else {
      SomaEntradasSplit(w, ds);
      assert w[0] in w;
      assert forall c :: c in w[1..] ==> c in w;
      SomaPorConcurso(w[1..], ds);
    }
  }

  /** The frequencies over 1..25 add up to 15 per draw of the window. */
  lemma SomaOcorrenciasIgualQuinzePorConcurso(w: seq<Concurso>)
    ensures SomaOcorrencias(OcorrenciasPorDezena(w)) == DEZENAS_POR_CONCURSO * |w|
  {
    forall c | c in w ensures Count(TodasDezenas, Pertence(c.dezenas)) == DEZENAS_POR_CONCURSO {
      ContribuicaoDeUmConcurso(c);
    }
    SomaPorConcurso(w, TodasDezenas);
  }

  /** The frequencies, and so the ranked `maisSorteadas`, do not depend on the order of the window. */
  lemma OcorrenciasIndependemDaOrdem(w1: seq<Concurso>, w2: seq<Concurso>, qtdToSlice: int)
    requires multiset(w1) == multiset(w2)
    ensures OcorrenciasPorDezena(w1) == OcorrenciasPorDezena(w2)
    ensures Estatisticas(w1, qtdToSlice).maisSorteadas == Estatisticas(w2, qtdToSlice).maisSorteadas
  {
    forall d ensures Aparicoes(w1, d) == Aparicoes(w2, d) {
      CountPermutation(w1, w2, Contem(d));
    }
    assert |w1| == |multiset(w1)| == |w2|;
  }

  // ---------------------------------------------------------------------------
  // Absences

  /** 25 absence entries, one per number, ascending; each bounded by the window, at the bound exactly when the number never appeared. */
  lemma {:induction false} AusenciasLimitadas(w: seq<Concurso>)
    ensures var r := AusenciasPorDezena(w);
      |r| == MAIOR_DEZENA &&
      (forall i :: 0 <= i < |r| ==> r[i].dezena == i + 1) &&
      (forall i :: 0 <= i < |r| ==> 0 <= r[i].concursosSemSair <= |w|) &&
      (forall i :: 0 <= i < |r| ==> (r[i].concursosSemSair == |w| <==> r[i].ultimoConcurso.None?)) &&
      (forall i :: 0 <= i < |r| ==> (r[i].ultimoConcurso.None? <==> Aparicoes(w, i + 1) == 0))
  {
    var r := AusenciasPorDezena(w);
    var os := MaisRecentesPrimeiro(w);
    forall i | 0 <= i < |r| ensures r[i].ultimoConcurso.None? <==> Aparicoes(w, i + 1) == 0 {
      CountPermutation(os, w, Contem(i + 1));
      CountPositiveConcursos(os, i + 1);
    }
  }

  /** A draw count is positive exactly when some draw drew the number. */
  lemma {:induction false} CountPositiveConcursos(os: seq<Concurso>, d: int)
    ensures Aparicoes(os, d) > 0 <==> exists j :: 0 <= j < |os| && d in os[j].dezenas
  {
    if os != [] {
      CountPositiveConcursos(os[1..], d);
      if d !in os[0].dezenas {
        assert (exists j :: 0 <= j < |os| && d in os[j].dezenas) ==>
          (exists j :: 0 <= j < |os[1..]| && d in os[1..][j].dezenas) by {
          if exists j :: 0 <= j < |os| && d in os[j].dezenas {
            var j :| 0 <= j < |os| && d in os[j].dezenas;
            assert j != 0 && os[1..][j - 1] == os[j];
          }
        }
      }
    }
  }

  /** `ultimoConcurso`, when set, is the newest draw of the window that drew the number. */
  lemma UltimoConcursoEhOMaisRecente(w: seq<Concurso>, d: int)
    requires InRange(d)
    ensures var a := AusenciasPorDezena(w)[d - 1];
      a.ultimoConcurso.Some? ==>
        (exists c :: c in w && d in c.dezenas && c.numero == a.ultimoConcurso.value) &&
        (forall c :: c in w && d in c.dezenas ==> c.numero <= a.ultimoConcurso.value)
  {
    var os := MaisRecentesPrimeiro(w);
    var a := AusenciasPorDezena(w)[d - 1];
    assert a == Ausencia(os, d);
    if a.ultimoConcurso.Some? {
      var k := a.concursosSemSair;
      assert os[k] in multiset(w);
      forall c | c in w && d in c.dezenas ensures c.numero <= a.ultimoConcurso.value {
        assert c in multiset(os);
        var j :| 0 <= j < |os| && os[j] == c;
        assert k <= j;
        assert Numero(os[k]) >= Numero(os[j]) || k == j;
      }
    }
  }

  /** Draws that are the same draw when they have the same number. */
  predicate NumerosIdentificam(w: seq<Concurso>) {
    forall c1, c2 :: c1 in w && c2 in w && c1.numero == c2.numero ==> c1 == c2
  }

  /** `c => c.numero > u`. */
  function MaisNovoQue(u: int): Concurso -> bool {
    (c: Concurso) => c.numero > u
  }

  lemma {:induction false} CountPrefixo<T>(s: seq<T>, p: T -> bool, k: nat)
    requires k <= |s|
    requires forall j :: 0 <= j < k ==> p(s[j])
    requires forall j :: k <= j < |s| ==> !p(s[j])
    ensures Count(s, p) == k
  {
    if s != [] {
      if k == 0 {
        CountPrefixo(s[1..], p, 0);
      } else {
        CountPrefixo(s[1..], p, k - 1);
      }
    }
  }

  /**
   * With one object per draw number, `concursosSemSair` is the number of draws of the window
   * newer than `ultimoConcurso`, and none of them drew the number.
   */
  lemma UltimoConcursoContaOsMaisNovos(w: seq<Concurso>, d: int)
    requires InRange(d) && NumerosIdentificam(w)
    ensures var a := AusenciasPorDezena(w)[d - 1];
      a.ultimoConcurso.Some? ==>
        a.concursosSemSair == Count(w, MaisNovoQue(a.ultimoConcurso.value)) &&
        (forall c :: c in w && c.numero > a.ultimoConcurso.value ==> d !in c.dezenas)
  {
    var os := MaisRecentesPrimeiro(w);
    var a := AusenciasPorDezena(w)[d - 1];
    assert a == Ausencia(os, d);
    if a.ultimoConcurso.Some? {
      var k := a.concursosSemSair;
      var u := a.ultimoConcurso.value;
      forall c | c in os ensures c in w {
        assert c in multiset(os);
      }
      PrefixoMaisNovo(os, d, k);
      CountPermutation(os, w, MaisNovoQue(u));
      forall c | c in w && c.numero > u ensures d !in c.dezenas {
        assert c in multiset(os);
        var j :| 0 <= j < |os| && os[j] == c;
      }
    }
  }

  /**
   * In draws newest first with one object per number, the draws before the first one that
   * drew `d` are exactly those newer than it.
   */
  lemma PrefixoMaisNovo(os: seq<Concurso>, d: int, k: int)
    requires SortedDesc(os, Numero) && NumerosIdentificam(os)
    requires 0 <= k < |os| && d in os[k].dezenas
    requires forall j :: 0 <= j < k ==> d !in os[j].dezenas
    ensures Count(os, MaisNovoQue(os[k].numero)) == k
    ensures forall j :: 0 <= j < |os| && os[j].numero > os[k].numero ==> j < k
  {
    var u := os[k].numero;
    forall j | 0 <= j < k ensures MaisNovoQue(u)(os[j]) {
      assert Numero(os[j]) >= Numero(os[k]);
      assert os[j] != os[k];
    }
    forall j | k <= j < |os| ensures !MaisNovoQue(u)(os[j]) {
      assert j == k || Numero(os[k]) >= Numero(os[j]);
    }
    CountPrefixo(os, MaisNovoQue(u), k);
  }

  /** Equal frequencies or absences are listed by ascending number in the report. */
  lemma EmpatesEmOrdemDeDezena(w: seq<Concurso>, qtdToSlice: int)
    ensures EmpatesPorDezena(Estatisticas(w, qtdToSlice))
  {
    if w != [] {
      ListasEmOrdemDeDezena(w);
      TiesKeepInputOrder(OcorrenciasPorDezena(w), AusenciasPorDezena(w), [], [], |w|, qtdToSlice);
    } else {
      TiesKeepInputOrder([], [], [], [], 0, qtdToSlice);
    }
  }

  /** Both lists handed to `create` run through the numbers in ascending order. */
  lemma ListasEmOrdemDeDezena(w: seq<Concurso>)
    ensures var oc := OcorrenciasPorDezena(w);
      forall i, j :: 0 <= i < j < |oc| ==> oc[i].dezena < oc[j].dezena
    ensures var au := AusenciasPorDezena(w);
      forall i, j :: 0 <= i < j < |au| ==> au[i].dezena < au[j].dezena
  {
    OcorrenciasUmaPorDezena(w);
    var au := AusenciasPorDezena(w);
    assert forall i :: 0 <= i < |au| ==> au[i].dezena == i + 1;
  }

  // ---------------------------------------------------------------------------
  // The call as written: four positional arguments to the six-parameter `create`

  /** A value in one of `create`'s run-length slots: a list, or a plain number. */
  datatype ValorJs = Lista(itens: seq<DezenaMaiorSequencia>) | NumeroJs(n: int)

  /** The `TypeError` a spread of a number raises: the number is not iterable. */
  datatype ErroJs = NaoIteravel(valor: int)

  /** `[...v]`: a list is copied, a number throws. */
  function Espalhar(v: ValorJs): (r: Result<seq<DezenaMaiorSequencia>, ErroJs>)
    ensures r.Success? <==> v.Lista?
    ensures v.Lista? ==> r.value == v.itens
    ensures v.NumeroJs? ==> r == Failure(NaoIteravel(v.n))
  {
    match v
    case Lista(itens) => Success(itens)
    case NumeroJs(n) => Failure(NaoIteravel(n))
  }

  /**
   * `create` with whatever reaches its third and fourth parameters: line 42 spreads the third,
   * line 50 the fourth, and only then is a report built.
   */
  function CreatePosicional(
    maisSorteadas: seq<DezenaOcorrencia>, maisAusentes: seq<DezenaAusente>,
    terceiro: ValorJs, quarto: ValorJs, total: int, qtdTop: int): (r: Result<DezenasEstatisticas, ErroJs>)
    ensures r.Success? <==> terceiro.Lista? && quarto.Lista?
    ensures r.Success? ==> r.value == Create(maisSorteadas, maisAusentes, terceiro.itens, quarto.itens, total, qtdTop)
    ensures terceiro.NumeroJs? ==> r == Failure(NaoIteravel(terceiro.n))
  {
    match Espalhar(terceiro)
    case Failure(e) => Failure(e)
    case Success(maioresSequencias) =>
      match Espalhar(quarto)
      case Failure(e) => Failure(e)
      case Success(maioresSequenciasAusente) =>
        Success(Create(maisSorteadas, maisAusentes, maioresSequencias, maioresSequenciasAusente, total, qtdTop))
  }

  /**
   * `calcular` as written: `create(maisSorteadas, maisAusentes, concursos.length, qtdToSlice)`.
   * The window length binds to `maioresSequencias`, `qtdToSlice` to `maioresSequenciasAusente`,
   * `totalConcursosAnalisados` is `undefined` and `qtdTop` takes its default. The spread of the
   * third argument throws before the fifth is read, so any value stands for `undefined` here.
   */
  function CalcularComoEscrito(w: seq<Concurso>, qtdToSlice: int): Result<DezenasEstatisticas, ErroJs> {
    if |w| == 0 then CreatePosicional([], [], NumeroJs(0), NumeroJs(qtdToSlice), 0, QTD_TOP_PADRAO)
    else CreatePosicional(OcorrenciasPorDezena(w), AusenciasPorDezena(w), NumeroJs(|w|), NumeroJs(qtdToSlice), 0, QTD_TOP_PADRAO)
  }

  /** As written, every call of `calcular`, on an empty window or not, throws a `TypeError`. */
  lemma CalcularComoEscritoSempreLanca(w: seq<Concurso>, qtdToSlice: int)
    ensures CalcularComoEscrito(w, qtdToSlice) == Failure(NaoIteravel(|w|))
    ensures CalcularComoEscrito(w, qtdToSlice) != Success(Estatisticas(w, qtdToSlice))
  {
  }

  /** The intended six-argument call, empty run-length lists and the window length as total, gives `Estatisticas`. */
  lemma ChamadaComSeisArgumentos(w: seq<Concurso>, qtdToSlice: int)
    ensures w != [] ==>
      CreatePosicional(OcorrenciasPorDezena(w), AusenciasPorDezena(w), Lista([]), Lista([]), |w|, qtdToSlice)
      == Success(Estatisticas(w, qtdToSlice))
    ensures w == [] ==>
      CreatePosicional([], [], Lista([]), Lista([]), 0, qtdToSlice) == Success(Estatisticas(w, qtdToSlice))
  {
  }
}
