/**
 * The draw entity (`Concurso`): one Lotofacil result, 15 distinct numbers ("dezenas")
 * out of 1..25, with its draw number, date, takings and prizes.
 *
 * What the source keeps in `private readonly` fields is a `const` here; the numbers
 * carry the creation check in their type, so every `Concurso` object is valid. The
 * comparison with the previous draw and the pre-draw statistics are the mutable part.
 */
module ConcursoEntity {
  import opened Wrappers
  import opened StableSort

  const MENOR_DEZENA: int := 1
  const MAIOR_DEZENA: int := 25
  const DEZENAS_POR_CONCURSO: int := 15

  /** `TODAS_DEZENAS`: the universe 1..25 in ascending order. */
  const TodasDezenas: seq<int> :=
    [1, 2, 3, 4, 5, 6, 7, 8, 9, 10, 11, 12, 13, 14, 15, 16, 17, 18, 19, 20, 21, 22, 23, 24, 25]

  /** A calendar date, month 1..12. Dates are carried, never computed with, by the entity. */
  datatype Data = Data(ano: int, mes: int, dia: int)

  /** The eleven prize figures, carried unchanged. */
  datatype Premiacoes = Premiacoes(
    ganhadores15: int, ganhadores14: int, ganhadores13: int, ganhadores12: int, ganhadores11: int,
    valorRateio15: int, valorRateio14: int, valorRateio13: int, valorRateio12: int, valorRateio11: int,
    acumulado15: int)

  /** The three ways `validateDezenas` rejects a list, in the order it checks them. */
  datatype ConcursoError = QuantidadeInvalida | DezenaForaDoIntervalo | DezenaRepetida {
    function Message(): string {
      match this
      case QuantidadeInvalida => "Um concurso da Lotofácil deve ter exatamente 15 dezenas"
      case DezenaForaDoIntervalo => "Todas as dezenas devem estar entre 1 e 25"
      case DezenaRepetida => "Não podem haver dezenas repetidas no mesmo concurso"
    }
  }

  predicate InRange(d: int) {
    MENOR_DEZENA <= d <= MAIOR_DEZENA
  }

  predicate Distinct(s: seq<int>) {
    forall i, j :: 0 <= i < j < |s| ==> s[i] != s[j]
  }

  /** Non-decreasing integers: the order of `sort((a, b) => a - b)`. */
  predicate Ascending(s: seq<int>) {
    forall i, j :: 0 <= i < j < |s| ==> s[i] <= s[j]
  }

  /** What a valid draw's numbers are: 15 entries, all in 1..25, pairwise distinct. */
  predicate ValidDezenas(s: seq<int>) {
    |s| == DEZENAS_POR_CONCURSO && (forall i :: 0 <= i < |s| ==> InRange(s[i])) && Distinct(s)
  }

  type DezenasValidas = s: seq<int> | ValidDezenas(s)
    witness [1, 2, 3, 4, 5, 6, 7, 8, 9, 10, 11, 12, 13, 14, 15]

  function ElementSet(s: seq<int>): set<int> {
    set x | x in s
  }

  function OutOfRange(d: int): bool {
    d < MENOR_DEZENA || d > MAIOR_DEZENA
  }

  /**
   * `validateDezenas`: the length check, then the range filter, then the size of the
   * `Set` of the numbers, each with its own error.
   */
  function ValidateDezenas(s: seq<int>): (r: Outcome<ConcursoError>)
    ensures r == Pass <==> ValidDezenas(s)
    ensures r == Fail(QuantidadeInvalida) <==> |s| != DEZENAS_POR_CONCURSO
    ensures r == Fail(DezenaForaDoIntervalo) <==>
      |s| == DEZENAS_POR_CONCURSO && exists i :: 0 <= i < |s| && !InRange(s[i])
    ensures r == Fail(DezenaRepetida) <==>
      |s| == DEZENAS_POR_CONCURSO && (forall i :: 0 <= i < |s| ==> InRange(s[i])) && !Distinct(s)
  {
    CountPositive(s, OutOfRange);
    DistinctCardinality(s);
    if |s| != DEZENAS_POR_CONCURSO then Fail(QuantidadeInvalida)
    else if Count(s, OutOfRange) > 0 then Fail(DezenaForaDoIntervalo)
    else if |ElementSet(s)| != DEZENAS_POR_CONCURSO then Fail(DezenaRepetida)
    else Pass
  }

  lemma {:induction false} CountPositive(s: seq<int>, p: int -> bool)
    ensures Count(s, p) > 0 <==> exists i :: 0 <= i < |s| && p(s[i])
  {
    if s != [] {
      CountPositive(s[1..], p);
      if Count(s[1..], p) > 0 {
        var i :| 0 <= i < |s[1..]| && p(s[1..][i]);
        assert p(s[i + 1]);
      }
      if exists i :: 0 <= i < |s| && p(s[i]) {
        var i :| 0 <= i < |s| && p(s[i]);
        if i > 0 { assert p(s[1..][i - 1]); }
      }
    }
  }

  /** A list has as many distinct values as entries exactly when no value repeats. */
  lemma {:induction false} DistinctCardinality(s: seq<int>)
    ensures |ElementSet(s)| <= |s|
    ensures |ElementSet(s)| == |s| <==> Distinct(s)
  {
    if s != [] {
      var t := s[1..];
      DistinctCardinality(t);
      assert ElementSet(s) == {s[0]} + ElementSet(t);
      if s[0] in t {
        assert ElementSet(s) == ElementSet(t);
        var j :| 0 <= j < |t| && t[j] == s[0];
        assert s[0] == s[j + 1];
      } else {
        assert |ElementSet(s)| == 1 + |ElementSet(t)|;
        if Distinct(t) {
          forall i, j | 0 <= i < j < |s| ensures s[i] != s[j] {
            if i == 0 { assert s[j] == t[j - 1]; } else { assert s[i] == t[i - 1] && s[j] == t[j - 1]; }
          }
        }
        if Distinct(s) {
          forall i, j | 0 <= i < j < |t| ensures t[i] != t[j] {
            assert t[i] == s[i + 1] && t[j] == s[j + 1];
          }
        }
      }
    }
  }

  /** `all.filter(d => !s.includes(d))`. */
  function Without(all: seq<int>, s: seq<int>): (r: seq<int>)
    ensures forall x :: x in r <==> x in all && x !in s
  {
    if all == [] then []
    else
      assert all == [all[0]] + all[1..];
      (if all[0] in s then [] else [all[0]]) + Without(all[1..], s)
  }

  /** Filtering keeps the elements in their order, so an ascending universe gives an ascending result. */
  lemma {:induction false} WithoutStrictlyAscending(all: seq<int>, s: seq<int>)
    requires StrictlyAscending(all)
    ensures StrictlyAscending(Without(all, s))
  {
    if all != [] {
      var tail := all[1..];
      assert StrictlyAscending(tail) by {
        forall i, j | 0 <= i < j < |tail| ensures tail[i] < tail[j] {
          assert tail[i] == all[i + 1] && tail[j] == all[j + 1];
        }
      }
      WithoutStrictlyAscending(tail, s);
      var rest := Without(tail, s);
      forall x | x in rest ensures x > all[0] {
        var j :| 0 <= j < |tail| && tail[j] == x;
        assert all[j + 1] == x;
      }
      var r := (if all[0] in s then [] else [all[0]]) + rest;
      forall i, j | 0 <= i < j < |r| ensures r[i] < r[j] {
        if all[0] !in s && i == 0 {
          assert r[j] == rest[j - 1];
          assert r[j] in rest;
        } else if all[0] !in s {
          assert r[i] == rest[i - 1] && r[j] == rest[j - 1];
        }
      }
    }
  }

  /** The universe constant lists 1..25 once each, ascending. */
  lemma TodasDezenasFacts()
    ensures |TodasDezenas| == MAIOR_DEZENA
    ensures StrictlyAscending(TodasDezenas)
    ensures forall d :: d in TodasDezenas <==> InRange(d)
    ensures |ElementSet(TodasDezenas)| == MAIOR_DEZENA
  {
    assert forall i :: 0 <= i < |TodasDezenas| ==> TodasDezenas[i] == i + 1;
    forall d | InRange(d) ensures d in TodasDezenas { assert TodasDezenas[d - 1] == d; }
    StrictlyAscendingIsDistinct(TodasDezenas);
    DistinctCardinality(TodasDezenas);
  }

  function Negate(x: int): int {
    -x
  }

  /** `[...s].sort((a, b) => a - b)`: the stable sort by ascending value. */
  function SortAscending(s: seq<int>): (r: seq<int>)
    ensures multiset(r) == multiset(s)
    ensures Ascending(r)
  {
    var r := SortDesc(s, Negate);
    assert forall i, j :: 0 <= i < j < |r| ==> Negate(r[i]) >= Negate(r[j]);
    r
  }

  /** Sorting an already ascending list gives the list back. */
  lemma SortAscendingOfAscending(s: seq<int>)
    requires Ascending(s)
    ensures SortAscending(s) == s
  {
    assert SortedDesc(s, Negate);
    StableSortIsSortDesc(s, s, Negate);
  }

  lemma StrictlyAscendingIsDistinct(s: seq<int>)
    requires StrictlyAscending(s)
    ensures Distinct(s) && Ascending(s)
  {
  }

  class Concurso {
    const numero: int
    const data: Data
    const dezenas: DezenasValidas
    const arrecadacaoTotal: int
    const premiacoes: Premiacoes
    /** `_dezenasNaoSorteadas`, derived once from the numbers drawn. */
    const naoSorteadas: seq<int> := Without(TodasDezenas, dezenas)

    var masAusentesAnterior: Option<seq<int>>
    var repetidasAnterior: Option<seq<int>>
    var estaticPreConcMaisOcorrencias: Option<seq<int>>
    var estaticPreConcMaisAtrasadas: Option<seq<int>>

    /** The private constructor, reached only after `validateDezenas` passed. */
    constructor (numero: int, data: Data, dezenas: DezenasValidas, arrecadacaoTotal: int,
                 premiacoes: Premiacoes,
                 masAusentesAnterior: Option<seq<int>>, repetidasAnterior: Option<seq<int>>)
      ensures this.numero == numero && this.data == data && this.dezenas == dezenas
      ensures this.arrecadacaoTotal == arrecadacaoTotal && this.premiacoes == premiacoes
      ensures this.masAusentesAnterior == masAusentesAnterior
      ensures this.repetidasAnterior == repetidasAnterior
      ensures estaticPreConcMaisOcorrencias == None && estaticPreConcMaisAtrasadas == None
    {
      this.numero := numero;
      this.data := data;
      this.dezenas := dezenas;
      this.arrecadacaoTotal := arrecadacaoTotal;
      this.premiacoes := premiacoes;
      this.masAusentesAnterior := masAusentesAnterior;
      this.repetidasAnterior := repetidasAnterior;
      this.estaticPreConcMaisOcorrencias := None;
      this.estaticPreConcMaisAtrasadas := None;
    }

    /** `Concurso.create`: a new draw, or the error `validateDezenas` throws. */
    static method Create(numero: int, data: Data, dezenas: seq<int>, arrecadacaoTotal: int,
                         premiacoes: Premiacoes,
                         masAusentesAnterior: Option<seq<int>> := None,
                         repetidasAnterior: Option<seq<int>> := None)
      returns (r: Result<Concurso, ConcursoError>)
      ensures r.Failure? <==> !ValidDezenas(dezenas)
      ensures r.Failure? ==> ValidateDezenas(dezenas) == Fail(r.error)
      ensures r.Success? ==> fresh(r.value)
      ensures r.Success? ==> (r.value.numero == numero && r.value.data == data
        && r.value.dezenas == dezenas && r.value.arrecadacaoTotal == arrecadacaoTotal
        && r.value.premiacoes == premiacoes
        && r.value.masAusentesAnterior == masAusentesAnterior
        && r.value.repetidasAnterior == repetidasAnterior
        && r.value.estaticPreConcMaisOcorrencias == None
        && r.value.estaticPreConcMaisAtrasadas == None)
    {
      match ValidateDezenas(dezenas)
      case Fail(e) =>
        r := Failure(e);
      case Pass =>
        var c := new Concurso(numero, data, dezenas, arrecadacaoTotal, premiacoes,
                              masAusentesAnterior, repetidasAnterior);
        r := Success(c);
    }

    /** The `dezenas` getter: a sorted copy of the stored list. */
    function DezenasOrdenadas(): (r: seq<int>)
      ensures Ascending(r) && multiset(r) == multiset(dezenas)
      ensures StrictlyAscending(r) && |r| == DEZENAS_POR_CONCURSO
      ensures forall d :: d in r <==> d in dezenas
    {
      var r := SortAscending(dezenas);
      assert forall d :: d in r <==> d in multiset(dezenas);
      assert |r| == |multiset(dezenas)|;
      AscendingDistinctIsStrict(r, dezenas);
      r
    }

    /** The `dezenasNaoSorteadas` getter: the numbers of 1..25 this draw did not draw, ascending. */
    function DezenasNaoSorteadas(): (r: seq<int>)
      ensures forall d :: d in r <==> InRange(d) && d !in dezenas
      ensures StrictlyAscending(r)
    {
      TodasDezenasFacts();
      WithoutStrictlyAscending(TodasDezenas, dezenas);
      StrictlyAscendingIsDistinct(naoSorteadas);
      SortAscendingOfAscending(naoSorteadas);
      SortAscending(naoSorteadas)
    }

    /** `containsDezena(d)`, the membership test the statistics use. */
    function ContainsDezena(d: int): bool {
      d in dezenas
    }

    /** The membership test agrees with both getters: drawn exactly when listed, never both. */
    lemma ContainsDezenaAgreesWithGetters(d: int)
      ensures ContainsDezena(d) <==> d in DezenasOrdenadas()
      ensures InRange(d) ==> (ContainsDezena(d) <==> d !in DezenasNaoSorteadas())
    {
    }

    /** The getter of the numbers that are new relative to the previous draw, `[]` when never set. */
    function MasAusentesAnterior(): (r: seq<int>)
      reads this
      ensures Ascending(r)
      ensures multiset(r) == multiset(masAusentesAnterior.GetOr([]))
    {
      SortAscending(masAusentesAnterior.GetOr([]))
    }

    /** The getter of the numbers repeated from the previous draw, `[]` when never set. */
    function RepetidasAnterior(): (r: seq<int>)
      reads this
      ensures Ascending(r)
      ensures multiset(r) == multiset(repetidasAnterior.GetOr([]))
    {
      SortAscending(repetidasAnterior.GetOr([]))
    }

    method SetMasAusentesAnterior(v: seq<int>)
      modifies this
      ensures masAusentesAnterior == Some(v)
      ensures repetidasAnterior == old(repetidasAnterior)
      ensures estaticPreConcMaisOcorrencias == old(estaticPreConcMaisOcorrencias)
      ensures estaticPreConcMaisAtrasadas == old(estaticPreConcMaisAtrasadas)
    {
      masAusentesAnterior := Some(v);
    }

    method SetRepetidasAnterior(v: seq<int>)
      modifies this
      ensures repetidasAnterior == Some(v)
      ensures masAusentesAnterior == old(masAusentesAnterior)
      ensures estaticPreConcMaisOcorrencias == old(estaticPreConcMaisOcorrencias)
      ensures estaticPreConcMaisAtrasadas == old(estaticPreConcMaisAtrasadas)
    {
      repetidasAnterior := Some(v);
    }
  }

  lemma AscendingDistinctIsStrict(r: seq<int>, s: seq<int>)
    requires Ascending(r) && multiset(r) == multiset(s) && Distinct(s)
    ensures StrictlyAscending(r) && |r| == |s|
  {
    assert |r| == |multiset(r)| == |multiset(s)| == |s|;
    forall i, j | 0 <= i < j < |r| ensures r[i] < r[j] {
      if r[i] == r[j] {
        assert multiset(r)[r[i]] >= 2 by {
          assert r == r[..i] + [r[i]] + r[i + 1..j] + [r[j]] + r[j + 1..];
        }
        DistinctMultiplicity(s, r[i]);
        assert false;
      }
    }
  }

  lemma {:induction false} DistinctMultiplicity(s: seq<int>, x: int)
    requires Distinct(s)
    ensures multiset(s)[x] <= 1
  {
    if s != [] {
      var t := s[1..];
      assert Distinct(t) by {
        forall i, j | 0 <= i < j < |t| ensures t[i] != t[j] { assert t[i] == s[i + 1] && t[j] == s[j + 1]; }
      }
      DistinctMultiplicity(t, x);
      assert s == [s[0]] + t;
      if s[0] == x {
        assert x !in t;
      }
    }
  }

  /** A valid draw leaves exactly 10 of the 25 numbers undrawn. */
  lemma NaoSorteadasCount(c: Concurso)
    ensures |c.DezenasNaoSorteadas()| == MAIOR_DEZENA - DEZENAS_POR_CONCURSO
  {
    var r := c.DezenasNaoSorteadas();
    TodasDezenasFacts();
    var univ, drawn, undrawn := ElementSet(TodasDezenas), ElementSet(c.dezenas), ElementSet(r);
    StrictlyAscendingIsDistinct(r);
    DistinctCardinality(r);
    DistinctCardinality(c.dezenas);
    assert undrawn == univ - drawn;
    assert drawn <= univ;
    CardinalidadeDaDiferenca(univ, drawn);
  }

  /** Removing a subset takes away exactly its size. */
  lemma CardinalidadeDaDiferenca(univ: set<int>, parte: set<int>)
    requires parte <= univ
    ensures |univ - parte| == |univ| - |parte|
  {
    assert univ == (univ - parte) + parte && (univ - parte) !! parte;
  }

  /** Drawn and undrawn numbers split the universe: disjoint, and together 1..25. */
  lemma DrawnAndUndrawnPartition(c: Concurso)
    ensures ElementSet(c.DezenasOrdenadas()) !! ElementSet(c.DezenasNaoSorteadas())
    ensures ElementSet(c.DezenasOrdenadas()) + ElementSet(c.DezenasNaoSorteadas()) == ElementSet(TodasDezenas)
  {
    TodasDezenasFacts();
  }
}
