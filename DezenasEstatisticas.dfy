/**
 * The statistics report (`DezenasEstatisticas`): an immutable value holding the most
 * drawn numbers, the most overdue numbers, two run-length lists and the size of the
 * window analysed. `Create` ranks and truncates the lists it is given; nothing
 * changes afterwards. The lists are Dafny values, so whether a getter hands out a copy
 * (`maisSorteadas`, `maisAusentes`) or the stored array (`maioresSequencias`,
 * `maioresSequenciasAusente`) makes no difference here.
 */
module EstatisticasValue {
  import opened Wrappers
  import opened StableSort

  /** How many entries the two ranked lists keep when the caller does not say. */
  const QTD_TOP_PADRAO: int := 10

  datatype DezenaOcorrencia = DezenaOcorrencia(dezena: int, ocorrencias: int)

  /** `ultimoConcurso` is `None` when the number did not appear in the window. */
  datatype DezenaAusente = DezenaAusente(dezena: int, concursosSemSair: int, ultimoConcurso: Option<int>)

  datatype DezenaMaiorSequencia = DezenaMaiorSequencia(dezena: int, sequencia: seq<int>)

  /** The plain object `toJSON` returns. */
  datatype EstatisticasJson = EstatisticasJson(
    maisSorteadas: seq<DezenaOcorrencia>,
    maisAusentes: seq<DezenaAusente>,
    maioresSequencias: seq<DezenaMaiorSequencia>,
    maioresSequenciasAusente: seq<DezenaMaiorSequencia>,
    totalConcursosAnalisados: int)

  datatype DezenasEstatisticas = DezenasEstatisticas(
    maisSorteadas: seq<DezenaOcorrencia>,
    maisAusentes: seq<DezenaAusente>,
    totalConcursosAnalisados: int,
    maioresSequencias: seq<DezenaMaiorSequencia>,
    maioresSequenciasAusente: seq<DezenaMaiorSequencia>)
  {
    /** `toJSON`: the five stored fields under their own names. */
    function ToJson(): EstatisticasJson {
      EstatisticasJson(maisSorteadas, maisAusentes, maioresSequencias, maioresSequenciasAusente,
                       totalConcursosAnalisados)
    }
  }

  /** The sort keys of the four lists. */
  function Ocorrencias(o: DezenaOcorrencia): int { o.ocorrencias }
  function SemSair(a: DezenaAusente): int { a.concursosSemSair }
  function Dezena(o: DezenaOcorrencia): int { o.dezena }
  function DezenaDoAusente(a: DezenaAusente): int { a.dezena }

  /** `Math.max(...s)` for a non-empty list. */
  function Max(s: seq<int>): (m: int)
    requires s != []
    ensures m in s && forall x :: x in s ==> x <= m
  {
    if |s| == 1 then s[0]
    else
      var rest := Max(s[1..]);
      assert s == [s[0]] + s[1..];
      if s[0] >= rest then s[0] else rest
  }

  /** `s.length ? Math.max(...s) : 0`: a number with no runs scores 0. */
  function MaiorSequencia(m: DezenaMaiorSequencia): (r: int)
    ensures m.sequencia == [] ==> r == 0
    ensures m.sequencia != [] ==> r in m.sequencia && forall x :: x in m.sequencia ==> x <= r
  {
    if |m.sequencia| > 0 then Max(m.sequencia) else 0
  }

  /** The length `slice(0, n)` leaves of a list of `len` entries. */
  function SliceLength(len: nat, n: int): nat {
    if n >= 0 then (if n <= len then n else len) else (if len + n >= 0 then len + n else 0)
  }

  /**
   * `DezenasEstatisticas.create`: each list is sorted on a copy, descending by its key;
   * the frequency and absence lists are cut with `slice(0, qtdTop)`, the run-length lists
   * with `slice(0, length)`, which keeps them whole.
   */
  function Create(
    maisSorteadas: seq<DezenaOcorrencia>,
    maisAusentes: seq<DezenaAusente>,
    maioresSequencias: seq<DezenaMaiorSequencia>,
    maioresSequenciasAusente: seq<DezenaMaiorSequencia>,
    totalConcursosAnalisados: int,
    qtdTop: int := QTD_TOP_PADRAO): (r: DezenasEstatisticas)
    ensures SortedDesc(r.maisSorteadas, Ocorrencias)
    ensures |r.maisSorteadas| == SliceLength(|maisSorteadas|, qtdTop)
    ensures multiset(r.maisSorteadas) <= multiset(maisSorteadas)
    ensures SortedDesc(r.maisAusentes, SemSair)
    ensures |r.maisAusentes| == SliceLength(|maisAusentes|, qtdTop)
    ensures multiset(r.maisAusentes) <= multiset(maisAusentes)
    ensures SortedDesc(r.maioresSequencias, MaiorSequencia)
    ensures multiset(r.maioresSequencias) == multiset(maioresSequencias)
    ensures SortedDesc(r.maioresSequenciasAusente, MaiorSequencia)
    ensures multiset(r.maioresSequenciasAusente) == multiset(maioresSequenciasAusente)
    ensures r.totalConcursosAnalisados == totalConcursosAnalisados
  {
    DezenasEstatisticas(
      Ranked(maisSorteadas, Ocorrencias, qtdTop),
      Ranked(maisAusentes, SemSair, qtdTop),
      totalConcursosAnalisados,
      Ranked(maioresSequencias, MaiorSequencia, |maioresSequencias|),
      Ranked(maioresSequenciasAusente, MaiorSequencia, |maioresSequenciasAusente|))
  }

  /** `[...s].sort((a, b) => key(b) - key(a)).slice(0, n)`. */
  function Ranked<T>(s: seq<T>, key: T -> int, n: int): (r: seq<T>)
    ensures SortedDesc(r, key)
    ensures |r| == SliceLength(|s|, n)
    ensures multiset(r) <= multiset(s)
    ensures n == |s| ==> multiset(r) == multiset(s)
  {
    var sorted := SortDesc(s, key);
    TakeOfSorted(sorted, key, n);
    assert n == |s| ==> Take(sorted, n) == sorted;
    Take(sorted, n)
  }

  /** A prefix of a sorted list is sorted and draws on the list's elements. */
  lemma TakeOfSorted<T>(s: seq<T>, key: T -> int, n: int)
    requires SortedDesc(s, key)
    ensures SortedDesc(Take(s, n), key)
    ensures multiset(Take(s, n)) <= multiset(s)
  {
    var t := Take(s, n);
    assert s == t + s[|t|..];
  }

  /** `totalConcursosAnalisados` is stored as given and `qtdTop` defaults to 10. */
  lemma CreateDefaults(
    maisSorteadas: seq<DezenaOcorrencia>, maisAusentes: seq<DezenaAusente>,
    maioresSequencias: seq<DezenaMaiorSequencia>, maioresSequenciasAusente: seq<DezenaMaiorSequencia>,
    total: int)
    ensures Create(maisSorteadas, maisAusentes, maioresSequencias, maioresSequenciasAusente, total)
         == Create(maisSorteadas, maisAusentes, maioresSequencias, maioresSequenciasAusente, total, QTD_TOP_PADRAO)
    ensures |Create(maisSorteadas, maisAusentes, maioresSequencias, maioresSequenciasAusente, total).maisSorteadas|
         == SliceLength(|maisSorteadas|, 10)
  {
  }

  /**
   * The two ranked lists are the first `qtdTop` entries of ANY stable sort of the input:
   * the comparator alone, with JavaScript's stable sort, fixes the result.
   */
  lemma {:induction false} RankedListsArePrefixesOfStableSorts(
    maisSorteadas: seq<DezenaOcorrencia>, maisAusentes: seq<DezenaAusente>,
    maioresSequencias: seq<DezenaMaiorSequencia>, maioresSequenciasAusente: seq<DezenaMaiorSequencia>,
    total: int, qtdTop: int,
    byOcorrencias: seq<DezenaOcorrencia>, bySemSair: seq<DezenaAusente>)
    requires IsStableSortOf(byOcorrencias, maisSorteadas, Ocorrencias)
    requires IsStableSortOf(bySemSair, maisAusentes, SemSair)
    ensures var r := Create(maisSorteadas, maisAusentes, maioresSequencias, maioresSequenciasAusente, total, qtdTop);
      r.maisSorteadas == Take(byOcorrencias, qtdTop) && r.maisAusentes == Take(bySemSair, qtdTop)
  {
    StableSortIsSortDesc(byOcorrencias, maisSorteadas, Ocorrencias);
    StableSortIsSortDesc(bySemSair, maisAusentes, SemSair);
  }

  /** Both run-length lists are stable sorts of their inputs: a permutation, nothing dropped. */
  lemma {:induction false} RunLengthListsAreStableSorts(
    maisSorteadas: seq<DezenaOcorrencia>, maisAusentes: seq<DezenaAusente>,
    maioresSequencias: seq<DezenaMaiorSequencia>, maioresSequenciasAusente: seq<DezenaMaiorSequencia>,
    total: int, qtdTop: int)
    ensures var r := Create(maisSorteadas, maisAusentes, maioresSequencias, maioresSequenciasAusente, total, qtdTop);
      IsStableSortOf(r.maioresSequencias, maioresSequencias, MaiorSequencia)
      && IsStableSortOf(r.maioresSequenciasAusente, maioresSequenciasAusente, MaiorSequencia)
      && |r.maioresSequencias| == |maioresSequencias|
      && |r.maioresSequenciasAusente| == |maioresSequenciasAusente|
  {
    var r := Create(maisSorteadas, maisAusentes, maioresSequencias, maioresSequenciasAusente, total, qtdTop);
    SortDescIsStable(maioresSequencias, MaiorSequencia);
    SortDescIsStable(maioresSequenciasAusente, MaiorSequencia);
    assert r.maioresSequencias == SortDesc(maioresSequencias, MaiorSequencia);
    assert r.maioresSequenciasAusente == SortDesc(maioresSequenciasAusente, MaiorSequencia);
  }

  /** Nothing `Ranked` drops outranks anything it keeps. */
  lemma RankedIsTop<T>(s: seq<T>, key: T -> int, n: int)
    ensures forall x, y :: (x in multiset(s) - multiset(Ranked(s, key, n)) && y in Ranked(s, key, n))
                           ==> key(x) <= key(y)
  {
    TakeOfSortedIsTop(s, key, n);
  }

  /** `Ranked` keeps the input order among equal keys. */
  lemma {:induction false} RankedKeepsTies<T>(s: seq<T>, key: T -> int, tie: T -> int, n: int)
    requires TiesOrderedBy(s, key, tie)
    ensures TiesOrderedBy(Ranked(s, key, n), key, tie)
  {
    SortDescKeepsTies(s, key, tie);
    var sorted := SortDesc(s, key);
    var r := Ranked(s, key, n);
    assert r == sorted[..|r|];
    forall i, j | 0 <= i < j < |r| && key(r[i]) == key(r[j]) ensures tie(r[i]) < tie(r[j]) {
      assert r[i] == sorted[i] && r[j] == sorted[j];
    }
  }

  /** Nothing the ranking drops has a higher count than anything it keeps. */
  lemma {:induction false} RankedListsKeepTheTop(
    maisSorteadas: seq<DezenaOcorrencia>, maisAusentes: seq<DezenaAusente>,
    maioresSequencias: seq<DezenaMaiorSequencia>, maioresSequenciasAusente: seq<DezenaMaiorSequencia>,
    total: int, qtdTop: int)
    ensures var r := Create(maisSorteadas, maisAusentes, maioresSequencias, maioresSequenciasAusente, total, qtdTop);
      (forall x, y :: x in multiset(maisSorteadas) - multiset(r.maisSorteadas) && y in r.maisSorteadas
         ==> x.ocorrencias <= y.ocorrencias) &&
      (forall x, y :: x in multiset(maisAusentes) - multiset(r.maisAusentes) && y in r.maisAusentes
         ==> x.concursosSemSair <= y.concursosSemSair)
  {
    var r := Create(maisSorteadas, maisAusentes, maioresSequencias, maioresSequenciasAusente, total, qtdTop);
    assert r.maisSorteadas == Ranked(maisSorteadas, Ocorrencias, qtdTop);
    assert r.maisAusentes == Ranked(maisAusentes, SemSair, qtdTop);
    RankedIsTop(maisSorteadas, Ocorrencias, qtdTop);
    RankedIsTop(maisAusentes, SemSair, qtdTop);
  }

  /** Equal frequencies, and equal absences, are listed by ascending number. */
  predicate EmpatesPorDezena(r: DezenasEstatisticas) {
    (forall i, j :: 0 <= i < j < |r.maisSorteadas| && r.maisSorteadas[i].ocorrencias == r.maisSorteadas[j].ocorrencias
       ==> r.maisSorteadas[i].dezena < r.maisSorteadas[j].dezena) &&
    (forall i, j :: 0 <= i < j < |r.maisAusentes| && r.maisAusentes[i].concursosSemSair == r.maisAusentes[j].concursosSemSair
       ==> r.maisAusentes[i].dezena < r.maisAusentes[j].dezena)
  }

  /** Equal counts keep their input order: an input ascending by number stays so within each tie. */
  lemma {:induction false} TiesKeepInputOrder(
    maisSorteadas: seq<DezenaOcorrencia>, maisAusentes: seq<DezenaAusente>,
    maioresSequencias: seq<DezenaMaiorSequencia>, maioresSequenciasAusente: seq<DezenaMaiorSequencia>,
    total: int, qtdTop: int)
    requires forall i, j :: 0 <= i < j < |maisSorteadas| ==> maisSorteadas[i].dezena < maisSorteadas[j].dezena
    requires forall i, j :: 0 <= i < j < |maisAusentes| ==> maisAusentes[i].dezena < maisAusentes[j].dezena
    ensures EmpatesPorDezena(Create(maisSorteadas, maisAusentes, maioresSequencias, maioresSequenciasAusente, total, qtdTop))
  {
    var r := Create(maisSorteadas, maisAusentes, maioresSequencias, maioresSequenciasAusente, total, qtdTop);
    assert r.maisSorteadas == Ranked(maisSorteadas, Ocorrencias, qtdTop);
    assert r.maisAusentes == Ranked(maisAusentes, SemSair, qtdTop);
    assert TiesOrderedBy(maisSorteadas, Ocorrencias, Dezena);
    assert TiesOrderedBy(maisAusentes, SemSair, DezenaDoAusente);
    RankedKeepsTies(maisSorteadas, Ocorrencias, Dezena, qtdTop);
    RankedKeepsTies(maisAusentes, SemSair, DezenaDoAusente, qtdTop);
  }

  /** `toJSON` loses nothing: two reports with the same JSON are the same report. */
  lemma ToJsonInjective(a: DezenasEstatisticas, b: DezenasEstatisticas)
    requires a.ToJson() == b.ToJson()
    ensures a == b
  {
  }
}
