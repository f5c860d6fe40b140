/**
 * The draw repository the ingestion use case talks to, held in memory: a map from draw
 * number to draw, the number being unique as the collection's unique index makes it.
 * The operations are the ones `ProcessLotofacilData.execute` calls.
 */
module Repositorio {
  import opened Wrappers
  import opened ConcursoEntity

  /** Every stored draw sits under its own number. */
  predicate Indexado(store: map<int, Concurso>) {
    forall k :: k in store ==> store[k].numero == k
  }

  function NumerosDe(cs: seq<Concurso>): set<int> {
    set c | c in cs :: c.numero
  }

  predicate NumerosDistintos(cs: seq<Concurso>) {
    forall i, j :: 0 <= i < j < |cs| ==> cs[i].numero != cs[j].numero
  }

  /**
   * `insertMany(documents, { ordered: false })` against the unique index: each draw whose
   * number is still free is inserted, in order; the others are refused, and the call reports
   * failure when any was.
   */
  function InsertMany(store: map<int, Concurso>, cs: seq<Concurso>): (r: (map<int, Concurso>, bool))
    ensures r.0.Keys == store.Keys + NumerosDe(cs)
    ensures forall k :: k in store ==> r.0[k] == store[k]
    decreases |cs|
  {
    if cs == [] then (store, true)
    else
      var c := cs[0];
      var livre := c.numero !in store;
      var next := if livre then store[c.numero := c] else store;
      var rest := InsertMany(next, cs[1..]);
      NumerosDeCons(cs);
      (rest.0, livre && rest.1)
  }

  lemma NumerosDeCons(cs: seq<Concurso>)
    requires cs != []
    ensures NumerosDe(cs) == {cs[0].numero} + NumerosDe(cs[1..])
  {
    assert cs == [cs[0]] + cs[1..];
  }

  lemma NumerosDistintosCons(cs: seq<Concurso>)
    requires cs != []
    ensures NumerosDistintos(cs) <==> NumerosDistintos(cs[1..]) && cs[0].numero !in NumerosDe(cs[1..])
  {
    var c, t := cs[0], cs[1..];
    if NumerosDistintos(t) && c.numero !in NumerosDe(t) {
      forall i, j | 0 <= i < j < |cs| ensures cs[i].numero != cs[j].numero {
        assert cs[j] == t[j - 1];
        if i > 0 { assert cs[i] == t[i - 1]; }
      }
    }
    if NumerosDistintos(cs) {
      forall x | x in t ensures x.numero != c.numero {
        var j :| 0 <= j < |t| && t[j] == x;
        assert cs[j + 1] == x;
      }
    }
  }

  /** The insert keeps every draw under its own number, and a new key holds one of the inserted draws. */
  lemma {:induction false} InsertManyIndexado(store: map<int, Concurso>, cs: seq<Concurso>)
    requires Indexado(store)
    ensures Indexado(InsertMany(store, cs).0)
    ensures forall k :: k in InsertMany(store, cs).0 && k !in store ==> InsertMany(store, cs).0[k] in cs
    decreases |cs|
  {
    if cs != [] {
      var c := cs[0];
      var next := if c.numero !in store then store[c.numero := c] else store;
      InsertManyIndexado(next, cs[1..]);
      assert InsertMany(store, cs).0 == InsertMany(next, cs[1..]).0;
      forall k | k in InsertMany(store, cs).0 && k !in store ensures InsertMany(store, cs).0[k] in cs {
        if k in next {
          assert k == c.numero && next[k] == c;
        } else {
          assert InsertMany(next, cs[1..]).0[k] in cs[1..];
        }
      }
    }
  }

  /** The bulk insert succeeds exactly when every number is free and the batch has no repeated number. */
  lemma {:induction false} InsertManyOk(store: map<int, Concurso>, cs: seq<Concurso>)
    ensures InsertMany(store, cs).1 <==>
      (forall i :: 0 <= i < |cs| ==> cs[i].numero !in store) && NumerosDistintos(cs)
    decreases |cs|
  {
    if cs != [] {
      var c := cs[0];
      var t := cs[1..];
      var next := if c.numero !in store then store[c.numero := c] else store;
      InsertManyOk(next, t);
      NumerosDistintosCons(cs);
      if c.numero !in store {
        RestoLivre(store, cs);
      } else {
        assert !(forall i :: 0 <= i < |cs| ==> cs[i].numero !in store);
      }
    }
  }

  /** With the head's number taken, the rest is free exactly when it is free in the store and avoids that number. */
  lemma RestoLivre(store: map<int, Concurso>, cs: seq<Concurso>)
    requires cs != [] && cs[0].numero !in store
    ensures (forall i :: 0 <= i < |cs[1..]| ==> cs[1..][i].numero !in store[cs[0].numero := cs[0]]) <==>
      (forall i :: 0 <= i < |cs| ==> cs[i].numero !in store) && cs[0].numero !in NumerosDe(cs[1..])
  {
    var c, t := cs[0], cs[1..];
    forall i | 0 <= i < |t| ensures t[i] == cs[i + 1] {}
    if c.numero in NumerosDe(t) {
      var x :| x in t && x.numero == c.numero;
      var j :| 0 <= j < |t| && t[j] == x;
    }
  }

  /** After a successful insert each draw of the batch sits under its own number. */
  lemma {:induction false} InsertManyGuarda(store: map<int, Concurso>, cs: seq<Concurso>)
    requires InsertMany(store, cs).1
    ensures forall i :: 0 <= i < |cs| ==>
      cs[i].numero in InsertMany(store, cs).0 && InsertMany(store, cs).0[cs[i].numero] == cs[i]
    decreases |cs|
  {
    if cs != [] {
      var c := cs[0];
      var next := store[c.numero := c];
      assert InsertMany(store, cs) == InsertMany(next, cs[1..]);
      InsertManyGuarda(next, cs[1..]);
      forall i | 0 < i < |cs| ensures cs[i] == cs[1..][i - 1] {}
    }
  }

  lemma NumerosDeConcat(a: seq<Concurso>, b: seq<Concurso>)
    ensures NumerosDe(a + b) == NumerosDe(a) + NumerosDe(b)
  {
    assert forall x :: x in a + b <==> x in a || x in b;
  }

  /** A successful insert adds one new key per draw. */
  lemma {:induction false} InsertManyCardinality(store: map<int, Concurso>, cs: seq<Concurso>)
    requires InsertMany(store, cs).1
    ensures |InsertMany(store, cs).0| == |store| + |cs|
    decreases |cs|
  {
    if cs != [] {
      var c := cs[0];
      var next := store[c.numero := c];
      assert c.numero !in store;
      assert InsertMany(store, cs) == InsertMany(next, cs[1..]);
      InsertManyCardinality(next, cs[1..]);
    }
  }

  /**
   * `find({ numero: { $gte: lo, $lte: hi } }).sort({ numero: 1 })`: the stored draws whose
   * number lies in `lo..hi`, ascending.
   */
  function Entre(store: map<int, Concurso>, lo: int, hi: int): seq<Concurso>
    decreases hi - lo
  {
    if hi < lo then [] else Entre(store, lo, hi - 1) + (if hi in store then [store[hi]] else [])
  }

  predicate NumerosCrescentes(cs: seq<Concurso>) {
    forall i, j :: 0 <= i < j < |cs| ==> cs[i].numero < cs[j].numero
  }

  predicate NumerosDecrescentes(cs: seq<Concurso>) {
    forall i, j :: 0 <= i < j < |cs| ==> cs[i].numero > cs[j].numero
  }

  /** The range query returns exactly the stored draws in range, each once, ascending by number. */
  lemma {:induction false} EntreFacts(store: map<int, Concurso>, lo: int, hi: int)
    requires Indexado(store)
    ensures var r := Entre(store, lo, hi);
      NumerosCrescentes(r) &&
      (forall i :: 0 <= i < |r| ==> lo <= r[i].numero <= hi && r[i].numero in store && store[r[i].numero] == r[i]) &&
      (forall k :: lo <= k <= hi && k in store ==> store[k] in r)
    decreases hi - lo
  {
    if hi >= lo {
      EntreFacts(store, lo, hi - 1);
    }
  }

  /** The range query sees only the keys in range: stores that agree there give the same answer. */
  lemma {:induction false} EntreLocal(s1: map<int, Concurso>, s2: map<int, Concurso>, lo: int, hi: int)
    requires forall k :: lo <= k <= hi ==> (k in s1 <==> k in s2)
    requires forall k :: lo <= k <= hi && k in s1 ==> s1[k] == s2[k]
    ensures Entre(s1, lo, hi) == Entre(s2, lo, hi)
    decreases hi - lo
  {
    if hi >= lo {
      EntreLocal(s1, s2, lo, hi - 1);
    }
  }

  /** A non-empty set of draw numbers has a greatest element. */
  lemma {:induction false} MaximoExiste(keys: set<int>)
    requires keys != {}
    ensures exists m :: m in keys && forall k :: k in keys ==> k <= m
    decreases |keys|
  {
    assert exists y :: y in keys by {
      if forall y :: y !in keys {
        assert false;
      }
    }
    var x :| x in keys;
    if keys == {x} {
      assert forall k :: k in keys ==> k <= x;
    } else {
      var rest := keys - {x};
      MaximoExiste(rest);
      var m :| m in rest && forall k :: k in rest ==> k <= m;
      var top := if x > m then x else m;
      forall k | k in keys ensures k <= top {
        if k != x { assert k in rest; }
      }
      assert top in keys;
    }
  }

  ghost function MaiorChave(keys: set<int>): (m: int)
    requires keys != {}
    ensures m in keys && forall k :: k in keys ==> k <= m
  {
    MaximoExiste(keys);
    var m :| m in keys && forall k :: k in keys ==> k <= m;
    m
  }

  /** The `n` draws with the highest numbers among `keys`, descending. */
  ghost function Topo(store: map<int, Concurso>, keys: set<int>, n: nat): (r: seq<Concurso>)
    requires keys <= store.Keys
    ensures |r| == if n <= |keys| then n else |keys|
    decreases n
  {
    if n == 0 || keys == {} then []
    else
      var m := MaiorChave(keys);
      [store[m]] + Topo(store, keys - {m}, n - 1)
  }

  /** `find().sort({ numero: -1 }).limit(limit)`; a limit of 0 means no limit. */
  ghost function MaisRecentes(store: map<int, Concurso>, limit: nat): seq<Concurso> {
    Topo(store, store.Keys, if limit == 0 then |store.Keys| else limit)
  }

  /** The numbers of a list of draws. */
  function NumerosDaLista(cs: seq<Concurso>): set<int> {
    if cs == [] then {} else {cs[0].numero} + NumerosDaLista(cs[1..])
  }

  /** Every entry of `r` is the draw stored under its number, a number of `keys`. */
  ghost predicate GuardadosSob(store: map<int, Concurso>, keys: set<int>, r: seq<Concurso>) {
    forall i :: 0 <= i < |r| ==> r[i].numero in keys && r[i].numero in store && store[r[i].numero] == r[i]
  }

  /** No key of `keys` left out of `r` is above a number in `r`. */
  ghost predicate SemMaioresFora(keys: set<int>, r: seq<Concurso>) {
    forall k, i :: k in keys && k !in NumerosDaLista(r) && 0 <= i < |r| ==> k < r[i].numero
  }

  /** `Topo` returns draws stored under the keys it was given. */
  lemma {:induction false} TopoElementos(store: map<int, Concurso>, keys: set<int>, n: nat)
    requires Indexado(store) && keys <= store.Keys
    ensures GuardadosSob(store, keys, Topo(store, keys, n))
    decreases n
  {
    if n > 0 && keys != {} {
      var m := MaiorChave(keys);
      TopoElementos(store, keys - {m}, n - 1);
      var rest := Topo(store, keys - {m}, n - 1);
      assert GuardadosSob(store, keys - {m}, rest);
      var r := [store[m]] + rest;
      assert r == Topo(store, keys, n);
      assert m in store && store[m].numero == m;
      forall i | 0 <= i < |r| ensures r[i].numero in keys && r[i].numero in store && store[r[i].numero] == r[i] {
        if i > 0 { assert r[i] == rest[i - 1]; }
      }
      assert GuardadosSob(store, keys, r);
    }
  }

  /** `Topo` is newest first. */
  lemma {:induction false} TopoDecrescente(store: map<int, Concurso>, keys: set<int>, n: nat)
    requires Indexado(store) && keys <= store.Keys
    ensures NumerosDecrescentes(Topo(store, keys, n))
    decreases n
  {
    if n > 0 && keys != {} {
      var m := MaiorChave(keys);
      TopoElementos(store, keys - {m}, n - 1);
      TopoDecrescente(store, keys - {m}, n - 1);
      var rest := Topo(store, keys - {m}, n - 1);
      assert GuardadosSob(store, keys - {m}, rest) && NumerosDecrescentes(rest);
      var r := [store[m]] + rest;
      assert r == Topo(store, keys, n);
      assert m in store && store[m].numero == m;
      forall i, j | 0 <= i < j < |r| ensures r[i].numero > r[j].numero {
        assert r[j] == rest[j - 1];
        assert r[j].numero in keys - {m};
        if i > 0 { assert r[i] == rest[i - 1]; }
      }
      assert NumerosDecrescentes(r);
    }
  }

  /** Nothing `Topo` leaves out is newer than anything it returns. */
  lemma {:induction false} TopoMaiores(store: map<int, Concurso>, keys: set<int>, n: nat)
    requires Indexado(store) && keys <= store.Keys
    ensures SemMaioresFora(keys, Topo(store, keys, n))
    decreases n
  {
    if n > 0 && keys != {} {
      var m := MaiorChave(keys);
      TopoMaiores(store, keys - {m}, n - 1);
      var rest := Topo(store, keys - {m}, n - 1);
      assert SemMaioresFora(keys - {m}, rest);
      var r := [store[m]] + rest;
      assert r == Topo(store, keys, n);
      assert m in store && store[m].numero == m;
      assert r[1..] == rest;
      assert NumerosDaLista(r) == {m} + NumerosDaLista(rest);
      forall k, i | k in keys && k !in NumerosDaLista(r) && 0 <= i < |r| ensures k < r[i].numero {
        assert k != m && k in keys - {m} && k !in NumerosDaLista(rest);
        if i > 0 {
          assert rest[i - 1] == r[i];
        }
      }
      assert SemMaioresFora(keys, r);
    }
  }

  /**
   * `findLatest(limit)` returns `limit` draws (all of them when fewer are stored or the limit
   * is 0), newest first, each a stored draw, with no stored draw left out newer than one returned.
   */
  lemma MaisRecentesFacts(store: map<int, Concurso>, limit: nat)
    requires Indexado(store)
    ensures var r := MaisRecentes(store, limit);
      |r| == (if limit == 0 || limit >= |store| then |store| else limit) &&
      NumerosDecrescentes(r) && GuardadosSob(store, store.Keys, r) &&
      SemMaioresFora(store.Keys, r)
  {
    var n := if limit == 0 then |store.Keys| else limit;
    assert |store.Keys| == |store|;
    TopoElementos(store, store.Keys, n);
    TopoDecrescente(store, store.Keys, n);
    TopoMaiores(store, store.Keys, n);
  }

  /** The one-step unfolding `FindLatest` follows. */
  lemma TopoPasso(store: map<int, Concurso>, keys: set<int>, n: nat, m: int)
    requires keys <= store.Keys && n > 0 && m in keys && forall k :: k in keys ==> k <= m
    ensures Topo(store, keys, n) == [store[m]] + Topo(store, keys - {m}, n - 1)
  {
    assert MaiorChave(keys) == m;
  }

  class ConcursoRepository {
    var store: map<int, Concurso>

    ghost predicate Valid()
      reads this
    {
      Indexado(store)
    }

    constructor()
      ensures store == map[] && Valid()
    {
      store := map[];
    }

    /** `exists(numero)`: whether a draw with this number is stored. */
    method Exists(numero: int) returns (b: bool)
      ensures b <==> numero in store
    {
      b := numero in store;
    }

    /** `findByNumero(numero)`: the stored draw, or `None` (`null`). */
    method FindByNumero(numero: int) returns (r: Option<Concurso>)
      ensures r.Some? <==> numero in store
      ensures r.Some? ==> r.value == store[numero]
    {
      r := if numero in store then Some(store[numero]) else None;
    }

    /** `saveMany(concursos)`: an unordered bulk insert; `ok` is false when the insert reported an error. */
    method SaveMany(concursos: seq<Concurso>) returns (ok: bool)
      modifies this
      ensures (store, ok) == InsertMany(old(store), concursos)
      ensures old(Valid()) ==> Valid()
    {
      ok := true;
      var i := 0;
      while i < |concursos|
        invariant 0 <= i <= |concursos|
        invariant var rest := InsertMany(store, concursos[i..]);
          (rest.0, ok && rest.1) == InsertMany(old(store), concursos)
      {
        assert concursos[i..][1..] == concursos[i + 1..];
        var c := concursos[i];
        if c.numero in store {
          ok := false;
        } else {
          store := store[c.numero := c];
        }
        i := i + 1;
      }
      if old(Valid()) {
        InsertManyIndexado(old(store), concursos);
      }
    }

    /** `update(numero, concurso)` with `upsert: false`: replaces a stored draw, never adds one. */
    method Update(numero: int, concurso: Concurso)
      requires concurso.numero == numero
      modifies this
      ensures store == if numero in old(store) then old(store)[numero := concurso] else old(store)
      ensures old(Valid()) ==> Valid()
    {
      if numero in store {
        store := store[numero := concurso];
      }
    }

    /** `findBetweenNumeros(start, end)`: the stored draws numbered `start..end`, ascending. */
    method FindBetweenNumeros(start: int, end: int) returns (r: seq<Concurso>)
      ensures r == Entre(store, start, end)
    {
      r := [];
      if end < start {
        return;
      }
      var k := start;
      while k <= end
        invariant start <= k <= end + 1
        invariant r == Entre(store, start, k - 1)
        decreases end - k
      {
        if k in store {
          r := r + [store[k]];
        }
        k := k + 1;
      }
    }

    /** `findLatest(limit)`: the `limit` highest-numbered draws, newest first; 0 means all. */
    method FindLatest(limit: nat) returns (r: seq<Concurso>)
      ensures r == MaisRecentes(store, limit)
    {
      var n: nat := if limit == 0 then |store.Keys| else limit;
      var remaining := store.Keys;
      r := [];
      while |r| < n && remaining != {}
        invariant remaining <= store.Keys
        invariant |r| <= n
        invariant r + Topo(store, remaining, n - |r|) == MaisRecentes(store, limit)
        decreases |remaining|
      {
        MaximoExiste(remaining);
        var m :| m in remaining && forall k :: k in remaining ==> k <= m;
        TopoPasso(store, remaining, n - |r|, m);
        var t := Topo(store, remaining - {m}, n - |r| - 1);
        assert r + ([store[m]] + t) == (r + [store[m]]) + t;
        r := r + [store[m]];
        remaining := remaining - {m};
      }
      assert Topo(store, remaining, n - |r|) == [];
    }
  }
}
