/**
 * The spreadsheet adapter (`CaixaDataProvider`): the rows of the first sheet of the Caixa
 * results file become draws. A row with too few cells, no positive number, no date or not
 * exactly 15 usable numbers is skipped; a row whose numbers `Concurso.create` refuses is
 * skipped too; the draws read are returned ascending by draw number.
 *
 * A cell is what `sheet_to_json` hands over: empty, a number or text. The conversions the
 * adapter takes from libraries are parameters (`Leitores`); the dd/MM/yyyy branch of
 * `parseDate`, with its two-digit year and its calendar check, is modelled in full.
 */
module CaixaProvider {
  import opened Wrappers
  import opened StableSort
  import opened ConcursoEntity

  /** A cell of the sheet: `null`, a number, or a string. */
  datatype Celula = Vazia | Numero(valor: int) | Texto(texto: string)

  /**
   * The library conversions the adapter relies on: `parseFloat` of a text cell (after the
   * comma is turned into a point; `None` for `NaN`), the native `new Date(str)` parse, and
   * the Excel serial-date decode followed by `new Date(y, m - 1, d)`.
   */
  datatype Leitores = Leitores(
    numeroDeTexto: string -> Option<int>,
    dataNativa: string -> Option<Data>,
    dataSerial: int -> Option<Data>)

  /** Columns A..R: the number, the date, the 15 numbers drawn and the takings. */
  const CELULAS_POR_LINHA: int := 18
  const PRIMEIRA_COLUNA_DE_DEZENA: int := 2
  const ULTIMA_COLUNA_DE_DEZENA: int := 16
  const COLUNA_ARRECADACAO: int := 17

  /** `parseNumber`: `null` for an empty cell or the empty string, else the number the cell holds. */
  function ParseNumber(c: Celula, leitores: Leitores): Option<int> {
    match c
    case Vazia => None
    case Numero(v) => Some(v)
    case Texto(t) => if t == "" then None else leitores.numeroDeTexto(t)
  }

  // ---------------------------------------------------------------------------
  // String.prototype.trim

  /** The characters `trim` removes: the white space and line terminators of ECMAScript. */
  predicate EspacoEmBranco(ch: char) {
    ch == ' ' || ch == '\t' || ch == '\n' || ch == '\r' || ch == '\U{000B}' || ch == '\U{000C}' ||
    ch == '\U{00A0}' || ch == '\U{1680}' || ('\U{2000}' <= ch <= '\U{200A}') || ch == '\U{2028}' ||
    ch == '\U{2029}' || ch == '\U{202F}' || ch == '\U{205F}' || ch == '\U{3000}' || ch == '\U{FEFF}'
  }

  /** `s` without its leading white space. */
  function SemEspacoInicial(s: string): (r: string)
    ensures |r| <= |s| && r == s[|s| - |r|..]
    ensures forall i :: 0 <= i < |s| - |r| ==> EspacoEmBranco(s[i])
    ensures r == [] || !EspacoEmBranco(r[0])
  {
    if s != [] && EspacoEmBranco(s[0]) then SemEspacoInicial(s[1..]) else s
  }

  /** `s` without its trailing white space. */
  function SemEspacoFinal(s: string): (r: string)
    ensures |r| <= |s| && r == s[..|r|]
    ensures forall i :: |r| <= i < |s| ==> EspacoEmBranco(s[i])
    ensures r == [] || !EspacoEmBranco(r[|r| - 1])
  {
    if s != [] && EspacoEmBranco(s[|s| - 1]) then SemEspacoFinal(s[..|s| - 1]) else s
  }

  /** How many white-space characters start `s`. */
  function EspacosIniciais(s: string): nat {
    |s| - |SemEspacoInicial(s)|
  }

  /**
   * `trim()`: the part of `s` after its `EspacosIniciais(s)` leading white-space characters
   * and before its trailing ones.
   */
  function Trim(s: string): (r: string)
    ensures r == [] || (!EspacoEmBranco(r[0]) && !EspacoEmBranco(r[|r| - 1]))
    ensures EspacosIniciais(s) + |r| <= |s| && s[EspacosIniciais(s)..EspacosIniciais(s) + |r|] == r
    ensures forall i :: 0 <= i < EspacosIniciais(s) ==> EspacoEmBranco(s[i])
    ensures forall i :: EspacosIniciais(s) + |r| <= i < |s| ==> EspacoEmBranco(s[i])
  {
    var t := SemEspacoInicial(s);
    var r := SemEspacoFinal(t);
    Recorte(s, t, r, |s| - |t|);
    r
  }

  /** Where a prefix `r` of the suffix `t == s[k..]` lies inside `s`. */
  lemma Recorte(s: string, t: string, r: string, k: nat)
    requires k <= |s| && t == s[k..] && |r| <= |t| && r == t[..|r|]
    ensures k + |r| <= |s| && s[k..k + |r|] == r
    ensures forall i :: k + |r| <= i < |s| ==> s[i] == t[i - k]
    ensures r != [] ==> r[0] == t[0]
  {
  }

  // ---------------------------------------------------------------------------
  // The pattern /^(\d{1,2})[\/\-](\d{1,2})[\/\-](\d{2}|\d{4})$/

  predicate Digito(ch: char) {
    '0' <= ch <= '9'
  }

  predicate Digitos(s: string) {
    forall i :: 0 <= i < |s| ==> Digito(s[i])
  }

  predicate Separador(ch: char) {
    ch == '/' || ch == '-'
  }

  /** The three capture groups of the pattern: day, month, year. */
  datatype Grupos = Grupos(dia: string, mes: string, ano: string)

  /** `s` matches the pattern with the groups `g`. */
  predicate CasaPadrao(s: string, g: Grupos) {
    var i := |g.dia|;
    var j := i + 1 + |g.mes|;
    Digitos(g.dia) && 1 <= |g.dia| <= 2 &&
    Digitos(g.mes) && 1 <= |g.mes| <= 2 &&
    Digitos(g.ano) && (|g.ano| == 2 || |g.ano| == 4) &&
    |s| == j + 1 + |g.ano| &&
    s[..i] == g.dia && Separador(s[i]) && s[i + 1..j] == g.mes && Separador(s[j]) && s[j + 1..] == g.ano
  }

  /** The length of the run of digits that starts `s`. */
  function PrefixoDeDigitos(s: string): (n: nat)
    ensures n <= |s| && Digitos(s[..n]) && (n == |s| || !Digito(s[n]))
  {
    if s != [] && Digito(s[0]) then
      var n := 1 + PrefixoDeDigitos(s[1..]);
      assert s[..n] == [s[0]] + s[1..][..n - 1];
      n
    else 0
  }

  /** A run of digits followed by a non-digit is the whole digit prefix. */
  lemma {:induction false} PrefixoDeDigitosExato(s: string, n: nat)
    requires n < |s| && Digitos(s[..n]) && !Digito(s[n])
    ensures PrefixoDeDigitos(s) == n
  {
    if n > 0 {
      assert Digito(s[..n][0]);
      assert s[1..][..n - 1] == s[..n][1..];
      PrefixoDeDigitosExato(s[1..], n - 1);
    }
  }

  /** `dateStr.match(...)`: the groups of the pattern, or `null`. */
  function CasarDmy(s: string): (r: Option<Grupos>)
    ensures r.Some? ==> CasaPadrao(s, r.value)
  {
    var i := PrefixoDeDigitos(s);
    if !(1 <= i <= 2 && i < |s| && Separador(s[i])) then None
    else
      var resto := s[i + 1..];
      var k := PrefixoDeDigitos(resto);
      if !(1 <= k <= 2 && k < |resto| && Separador(resto[k])) then None
      else
        var ano := resto[k + 1..];
        if Digitos(ano) && (|ano| == 2 || |ano| == 4) then
          FatiasDoResto(s, i, k);
          Some(Grupos(s[..i], resto[..k], ano))
        else None
  }

  /** How the slices of `s[i + 1..]` lie inside `s`. */
  lemma FatiasDoResto(s: string, i: nat, k: nat)
    requires i < |s| && k < |s[i + 1..]|
    ensures s[i + 1..i + 1 + k] == s[i + 1..][..k]
    ensures s[i + 1 + k + 1..] == s[i + 1..][k + 1..]
  {
  }

  /** Every string of the pattern matches, with its own groups. */
  lemma CasarDmyCompleto(s: string, g: Grupos)
    requires CasaPadrao(s, g)
    ensures CasarDmy(s) == Some(g)
  {
    OndeAcabaODia(s, g);
    DepoisDoDia(s, g);
    var resto := s[|g.dia| + 1..];
    assert Grupos(s[..|g.dia|], resto[..|g.mes|], resto[|g.mes| + 1..]) == g;
  }

  /** The day is the digit prefix of `s`, and a separator follows it. */
  lemma OndeAcabaODia(s: string, g: Grupos)
    requires CasaPadrao(s, g)
    ensures |g.dia| < |s| && PrefixoDeDigitos(s) == |g.dia| && s[..|g.dia|] == g.dia && Separador(s[|g.dia|])
  {
    assert !Digito(s[|g.dia|]);
    PrefixoDeDigitosExato(s, |g.dia|);
  }

  /** What follows the day and its separator: the month, a separator and the year. */
  lemma DepoisDoDia(s: string, g: Grupos)
    requires CasaPadrao(s, g)
    ensures var resto := s[|g.dia| + 1..];
      |g.mes| < |resto| && PrefixoDeDigitos(resto) == |g.mes| && resto[..|g.mes|] == g.mes &&
      Separador(resto[|g.mes|]) && resto[|g.mes| + 1..] == g.ano
  {
    var i := |g.dia|;
    var resto := s[i + 1..];
    assert resto[..|g.mes|] == s[i + 1..i + 1 + |g.mes|];
    assert resto[|g.mes| + 1..] == s[i + 1 + |g.mes| + 1..];
    assert !Digito(resto[|g.mes|]);
    PrefixoDeDigitosExato(resto, |g.mes|);
  }

  function Potencia10(n: nat): nat {
    if n == 0 then 1 else 10 * Potencia10(n - 1)
  }

  /** `parseInt(digits, 10)`. */
  function ValorDecimal(d: string): (r: nat)
    requires Digitos(d)
    ensures r < Potencia10(|d|)
  {
    if d == [] then 0
    else ValorDecimal(d[..|d| - 1]) * 10 + (d[|d| - 1] as int - '0' as int)
  }

  // ---------------------------------------------------------------------------
  // The date

  /** `if (year < 100) year += year >= 70 ? 1900 : 2000`. */
  function AnoComSeculo(ano: int): (r: int)
    ensures 0 <= ano < 100 ==> 1970 <= r < 2070 && r % 100 == ano
    ensures ano >= 100 ==> r == ano
    ensures ano >= 0 ==> r >= 100
  {
    if ano < 100 then ano + (if ano >= 70 then 1900 else 2000) else ano
  }

  predicate Bissexto(ano: int) {
    (ano % 4 == 0 && ano % 100 != 0) || ano % 400 == 0
  }

  function DiasNoMes(ano: int, mes: int): (n: int)
    requires 1 <= mes <= 12
    ensures 28 <= n <= 31
  {
    if mes == 2 then (if Bissexto(ano) then 29 else 28)
    else if mes == 4 || mes == 6 || mes == 9 || mes == 11 then 30
    else 31
  }

  /** A day of the Gregorian calendar. */
  predicate DataValida(d: Data) {
    1 <= d.mes <= 12 && 1 <= d.dia <= DiasNoMes(d.ano, d.mes)
  }

  /** Day `dia` counted from the first of `mes`, carried into earlier or later months. */
  function Rolar(ano: int, mes: int, dia: int): (r: Data)
    requires 1 <= mes <= 12
    ensures DataValida(r)
    ensures 1 <= dia <= DiasNoMes(ano, mes) ==> r == Data(ano, mes, dia)
    decreases if dia < 1 then 32 - dia else dia
  {
    if dia < 1 then
      var a := if mes == 1 then ano - 1 else ano;
      var m := if mes == 1 then 12 else mes - 1;
      Rolar(a, m, dia + DiasNoMes(a, m))
    else if dia > DiasNoMes(ano, mes) then
      var a := if mes == 12 then ano + 1 else ano;
      var m := if mes == 12 then 1 else mes + 1;
      Rolar(a, m, dia - DiasNoMes(ano, mes))
    else Data(ano, mes, dia)
  }

  /**
   * `new Date(ano, mesIndice, dia)` read back as year, month (1..12) and day: a year 0..99
   * means 1900 + year, the month index is carried into the year, then the day into the months.
   */
  function NovaData(ano: int, mesIndice: int, dia: int): (r: Data)
    ensures DataValida(r)
    ensures !(0 <= ano <= 99) && 0 <= mesIndice < 12 && 1 <= dia <= DiasNoMes(ano, mesIndice + 1) ==>
      r == Data(ano, mesIndice + 1, dia)
  {
    var a := if 0 <= ano <= 99 then 1900 + ano else ano;
    Rolar(a + mesIndice / 12, mesIndice % 12 + 1, dia)
  }

  /**
   * The check after `new Date(year, month - 1, day)`: the date is kept only when it reads
   * back as the same year, month and day.
   */
  function DataDoCalendario(dia: int, mes: int, ano: int): (r: Option<Data>)
    ensures !(0 <= ano <= 99) ==> (r.Some? <==> DataValida(Data(ano, mes, dia)))
    ensures r.Some? ==> r.value == Data(ano, mes, dia) && DataValida(r.value)
  {
    var d := NovaData(ano, mes - 1, dia);
    if d.ano == ano && d.mes == mes && d.dia == dia then Some(d) else None
  }

  /**
   * `parseDate`: a falsy cell gives `null`; a number is a serial date; a string is trimmed,
   * tried with the native parse, then with the dd/MM/yyyy pattern.
   */
  function ParseDate(c: Celula, leitores: Leitores): Option<Data> {
    match c
    case Vazia => None
    case Numero(v) => if v == 0 then None else leitores.dataSerial(v)
    case Texto(t) =>
      if t == "" then None
      else
        var s := Trim(t);
        var nativa := leitores.dataNativa(s);
        if nativa.Some? then nativa
        else
          match CasarDmy(s)
          case None => None
          case Some(g) =>
            DataDoCalendario(ValorDecimal(g.dia), ValorDecimal(g.mes), AnoComSeculo(ValorDecimal(g.ano)))
  }

  /**
   * When the native parse fails, a dd/MM/yy(yy) text is a date exactly when day, month and
   * the year (a two-digit one put in 1970..2069) name a real calendar day; 31/02 is refused.
   */
  lemma DataDiaMesAno(t: string, leitores: Leitores, g: Grupos)
    requires t != "" && leitores.dataNativa(Trim(t)).None? && CasaPadrao(Trim(t), g)
    ensures var d := Data(AnoComSeculo(ValorDecimal(g.ano)), ValorDecimal(g.mes), ValorDecimal(g.dia));
      ParseDate(Texto(t), leitores) == if DataValida(d) then Some(d) else None
  {
    CasarDmyCompleto(Trim(t), g);
  }

  /** A text that is neither a native date nor of the pattern is no date. */
  lemma DataSemPadrao(t: string, leitores: Leitores)
    requires leitores.dataNativa(Trim(t)).None? && CasarDmy(Trim(t)).None?
    ensures ParseDate(Texto(t), leitores).None?
  {
  }

  // ---------------------------------------------------------------------------
  // Rows

  /** What a row yields before `Concurso.create`: number, date, numbers drawn, takings. */
  datatype LinhaLida = LinhaLida(numero: int, data: Data, dezenas: seq<int>, arrecadacaoTotal: int)

  /** The prize fields the adapter fills in: all 0. */
  const SemPremiacoes: Premiacoes := Premiacoes(0, 0, 0, 0, 0, 0, 0, 0, 0, 0, 0)

  /** A cell that counts as a drawn number: a number in 1..25 (`dezena && dezena >= 1 && dezena <= 25`). */
  function DezenaDaCelula(c: Celula, leitores: Leitores): Option<int> {
    var v := ParseNumber(c, leitores);
    if v.Some? && 1 <= v.value <= MAIOR_DEZENA then v else None
  }

  /** The numbers of the cells that count as drawn numbers, in column order. */
  function DezenasDasCelulas(cs: seq<Celula>, leitores: Leitores): (r: seq<int>)
    ensures |r| <= |cs|
    ensures forall i :: 0 <= i < |r| ==> InRange(r[i])
  {
    if cs == [] then []
    else
      var ultima := DezenaDaCelula(cs[|cs| - 1], leitores);
      DezenasDasCelulas(cs[..|cs| - 1], leitores) + (if ultima.Some? then [ultima.value] else [])
  }

  /**
   * All cells survive the filter exactly when each holds a number in 1..25, and then the
   * numbers are those of the cells, in column order.
   */
  lemma {:induction false} DezenasTodasAproveitadas(cs: seq<Celula>, leitores: Leitores)
    ensures |DezenasDasCelulas(cs, leitores)| == |cs| <==>
      forall i :: 0 <= i < |cs| ==> DezenaDaCelula(cs[i], leitores).Some?
    ensures |DezenasDasCelulas(cs, leitores)| == |cs| ==>
      forall i :: 0 <= i < |cs| ==> DezenasDasCelulas(cs, leitores)[i] == DezenaDaCelula(cs[i], leitores).value
  {
    if cs != [] {
      var ini := cs[..|cs| - 1];
      DezenasTodasAproveitadas(ini, leitores);
      assert forall i :: 0 <= i < |ini| ==> ini[i] == cs[i];
      if DezenaDaCelula(cs[|cs| - 1], leitores).None? {
        assert |DezenasDasCelulas(cs, leitores)| == |DezenasDasCelulas(ini, leitores)| <= |ini|;
      }
    }
  }

  /**
   * `parseRowToConcurso` up to `Concurso.create`: at least 18 cells, a positive number, a
   * date, exactly 15 usable numbers among cells 2..16; the takings default to 0.
   */
  function LerLinha(row: seq<Celula>, leitores: Leitores): (r: Option<LinhaLida>)
    ensures r.Some? ==> |row| >= CELULAS_POR_LINHA && r.value.numero > 0 && |r.value.dezenas| == DEZENAS_POR_CONCURSO
    ensures r.Some? ==> forall i :: 0 <= i < |r.value.dezenas| ==> InRange(r.value.dezenas[i])
  {
    if |row| < CELULAS_POR_LINHA then None
    else
      var numero := ParseNumber(row[0], leitores);
      if numero.None? || numero.value <= 0 then None
      else
        var data := ParseDate(row[1], leitores);
        if data.None? then None
        else
          var dezenas := DezenasDasCelulas(row[PRIMEIRA_COLUNA_DE_DEZENA..ULTIMA_COLUNA_DE_DEZENA + 1], leitores);
          if |dezenas| != DEZENAS_POR_CONCURSO then None
          else
            var arrecadacao := ParseNumber(row[COLUNA_ARRECADACAO], leitores).GetOr(0);
            Some(LinhaLida(numero.value, data.value, dezenas, arrecadacao))
  }

  /**
   * A row is read exactly when it has 18 cells, a positive number, a date and 15 usable
   * numbers; the read row takes each field from its own cell, the takings defaulting to 0.
   */
  lemma LinhaDasCelulas(row: seq<Celula>, leitores: Leitores)
    ensures LerLinha(row, leitores).Some? <==>
      |row| >= CELULAS_POR_LINHA &&
      ParseNumber(row[0], leitores).Some? && ParseNumber(row[0], leitores).value > 0 &&
      ParseDate(row[1], leitores).Some? &&
      |DezenasDasCelulas(row[PRIMEIRA_COLUNA_DE_DEZENA..ULTIMA_COLUNA_DE_DEZENA + 1], leitores)| == DEZENAS_POR_CONCURSO
    ensures LerLinha(row, leitores).Some? ==>
      LerLinha(row, leitores).value.numero == ParseNumber(row[0], leitores).value &&
      LerLinha(row, leitores).value.data == ParseDate(row[1], leitores).value &&
      LerLinha(row, leitores).value.dezenas ==
        DezenasDasCelulas(row[PRIMEIRA_COLUNA_DE_DEZENA..ULTIMA_COLUNA_DE_DEZENA + 1], leitores) &&
      LerLinha(row, leitores).value.arrecadacaoTotal == ParseNumber(row[COLUNA_ARRECADACAO], leitores).GetOr(0)
  {
  }

  /** An accepted row took its 15 numbers from cells 2..16, one per cell, in column order. */
  lemma LinhaAceitaUsaTodasAsCelulas(row: seq<Celula>, leitores: Leitores)
    requires LerLinha(row, leitores).Some?
    ensures forall i :: PRIMEIRA_COLUNA_DE_DEZENA <= i <= ULTIMA_COLUNA_DE_DEZENA ==>
      DezenaDaCelula(row[i], leitores) == Some(LerLinha(row, leitores).value.dezenas[i - PRIMEIRA_COLUNA_DE_DEZENA])
  {
    var cs := row[PRIMEIRA_COLUNA_DE_DEZENA..ULTIMA_COLUNA_DE_DEZENA + 1];
    DezenasTodasAproveitadas(cs, leitores);
    assert forall i :: PRIMEIRA_COLUNA_DE_DEZENA <= i <= ULTIMA_COLUNA_DE_DEZENA ==>
      row[i] == cs[i - PRIMEIRA_COLUNA_DE_DEZENA];
  }

  /** The value-level content of a draw, as a row gives it. */
  function Resumo(c: Concurso): LinhaLida {
    LinhaLida(c.numero, c.data, c.dezenas, c.arrecadacaoTotal)
  }

  function Resumos(cs: seq<Concurso>): (r: seq<LinhaLida>)
    ensures |r| == |cs| && forall i :: 0 <= i < |cs| ==> r[i] == Resumo(cs[i])
  {
    if cs == [] then [] else [Resumo(cs[0])] + Resumos(cs[1..])
  }

  /** What one row adds to the result: its draw, when it is read and `create` accepts its numbers. */
  function Contribuicao(row: seq<Celula>, leitores: Leitores): seq<LinhaLida> {
    var l := LerLinha(row, leitores);
    if l.Some? && ValidDezenas(l.value.dezenas) then [l.value] else []
  }

  /** `Contribuicao` with the conversions fixed. */
  function ContribuicaoCom(leitores: Leitores): seq<Celula> -> seq<LinhaLida> {
    row => Contribuicao(row, leitores)
  }

  /** The concatenation of what `f` gives for each row, in row order. */
  function Juntar(rows: seq<seq<Celula>>, f: seq<Celula> -> seq<LinhaLida>): seq<LinhaLida> {
    if rows == [] then [] else Juntar(rows[..|rows| - 1], f) + f(rows[|rows| - 1])
  }

  lemma {:induction false} JuntarConcatena(a: seq<seq<Celula>>, b: seq<seq<Celula>>, f: seq<Celula> -> seq<LinhaLida>)
    ensures Juntar(a + b, f) == Juntar(a, f) + Juntar(b, f)
    decreases |b|
  {
    if b != [] {
      var b0 := b[..|b| - 1];
      var ab := a + b;
      assert ab[..|ab| - 1] == a + b0;
      assert ab[|ab| - 1] == b[|b| - 1];
      JuntarConcatena(a, b0, f);
    } else {
      assert a + b == a;
    }
  }

  /** The rows that become draws, in sheet order. */
  function Aceitas(rows: seq<seq<Celula>>, leitores: Leitores): (r: seq<LinhaLida>)
  {
    Juntar(rows, ContribuicaoCom(leitores))
  }

  /** Rows are read one by one: a skipped row does not affect the others. */
  lemma AceitasConcatena(a: seq<seq<Celula>>, b: seq<seq<Celula>>, leitores: Leitores)
    ensures Aceitas(a + b, leitores) == Aceitas(a, leitores) + Aceitas(b, leitores)
  {
    JuntarConcatena(a, b, ContribuicaoCom(leitores));
  }

  /** One more row adds its own contribution at the end. */
  lemma AceitasPasso(rows: seq<seq<Celula>>, i: int, leitores: Leitores)
    requires 0 <= i < |rows|
    ensures Aceitas(rows[..i + 1], leitores) == Aceitas(rows[..i], leitores) + Contribuicao(rows[i], leitores)
  {
    var p := rows[..i + 1];
    assert p[..|p| - 1] == rows[..i] && p[|p| - 1] == rows[i];
  }

  /** What `create` accepts from a row: a positive number and valid drawn numbers. */
  predicate LinhaValida(l: LinhaLida) {
    l.numero > 0 && ValidDezenas(l.dezenas)
  }

  /** Every draw kept from the sheet has a positive number and 15 distinct numbers in 1..25. */
  lemma {:induction false} AceitasValidas(rows: seq<seq<Celula>>, leitores: Leitores)
    ensures forall l :: l in Aceitas(rows, leitores) ==> LinhaValida(l)
  {
    if rows != [] {
      var ini := rows[..|rows| - 1];
      AceitasValidas(ini, leitores);
      assert Aceitas(rows, leitores) == Aceitas(ini, leitores) + Contribuicao(rows[|rows| - 1], leitores);
    }
  }

  /** The comparator `(a, b) => a.numero - b.numero` as a key for the descending stable sort. */
  function NumeroNegado(c: Concurso): int {
    -c.numero
  }

  function NumeroLidoNegado(l: LinhaLida): int {
    -l.numero
  }

  /** What `processLotofacilData` returns for the data rows: the accepted rows, ascending by number. */
  function Planilha(dataRows: seq<seq<Celula>>, leitores: Leitores): seq<LinhaLida> {
    SortDesc(Aceitas(dataRows, leitores), NumeroLidoNegado)
  }

  /**
   * The result is ascending by draw number, holds each accepted row once, and rows with the
   * same number keep their sheet order (the sort is stable).
   */
  lemma PlanilhaOrdenada(dataRows: seq<seq<Celula>>, leitores: Leitores)
    ensures var r := Planilha(dataRows, leitores);
      (forall i, j :: 0 <= i < j < |r| ==> r[i].numero <= r[j].numero) &&
      multiset(r) == multiset(Aceitas(dataRows, leitores)) &&
      forall k :: WithKey(r, NumeroLidoNegado, k) == WithKey(Aceitas(dataRows, leitores), NumeroLidoNegado, k)
  {
    var r := Planilha(dataRows, leitores);
    SortDescIsStable(Aceitas(dataRows, leitores), NumeroLidoNegado);
    assert forall i, j :: 0 <= i < j < |r| ==> NumeroLidoNegado(r[i]) >= NumeroLidoNegado(r[j]);
  }

  /** Every draw of the result has a positive number and valid drawn numbers. */
  lemma PlanilhaValida(dataRows: seq<seq<Celula>>, leitores: Leitores)
    ensures forall l :: l in Planilha(dataRows, leitores) ==> LinhaValida(l)
  {
    PlanilhaOrdenada(dataRows, leitores);
    AceitasValidas(dataRows, leitores);
    forall l | l in Planilha(dataRows, leitores) ensures l in Aceitas(dataRows, leitores) {
      assert l in multiset(Planilha(dataRows, leitores));
    }
  }

  /** Inserting a draw and then reading it equals reading and then inserting the row. */
  lemma {:induction false} ResumosInsert(x: Concurso, s: seq<Concurso>)
    ensures Resumos(Insert(x, s, NumeroNegado)) == Insert(Resumo(x), Resumos(s), NumeroLidoNegado)
  {
    if s != [] && NumeroNegado(s[0]) > NumeroNegado(x) {
      ResumosInsert(x, s[1..]);
      assert Resumos(s)[1..] == Resumos(s[1..]);
      assert Resumos([s[0]] + Insert(x, s[1..], NumeroNegado))[1..] == Resumos(Insert(x, s[1..], NumeroNegado));
    } else {
      assert Resumos([x] + s)[1..] == Resumos(s);
    }
  }

  /** Sorting the draws by number and then reading them equals sorting the rows read. */
  lemma {:induction false} ResumosOrdenados(s: seq<Concurso>)
    ensures Resumos(SortDesc(s, NumeroNegado)) == SortDesc(Resumos(s), NumeroLidoNegado)
  {
    if s != [] {
      ResumosOrdenados(s[1..]);
      ResumosInsert(s[0], SortDesc(s[1..], NumeroNegado));
      assert Resumos(s)[1..] == Resumos(s[1..]);
    }
  }

  // ---------------------------------------------------------------------------
  // The adapter's loops

  /** The reasons `processLotofacilData` throws that the model covers. */
  datatype ErroPlanilha = PlanilhaSemDados {
    function Message(): string {
      "Planilha deve conter pelo menos uma linha de cabeçalho e uma linha de dados"
    }
  }

  /** The loop over columns C..Q: `dezenas.push` of every cell holding a number in 1..25. */
  method ColetarDezenas(row: seq<Celula>, leitores: Leitores) returns (dezenas: seq<int>)
    requires |row| > ULTIMA_COLUNA_DE_DEZENA
    ensures dezenas == DezenasDasCelulas(row[PRIMEIRA_COLUNA_DE_DEZENA..ULTIMA_COLUNA_DE_DEZENA + 1], leitores)
  {
    dezenas := [];
    var i := PRIMEIRA_COLUNA_DE_DEZENA;
    while i <= ULTIMA_COLUNA_DE_DEZENA
      invariant PRIMEIRA_COLUNA_DE_DEZENA <= i <= ULTIMA_COLUNA_DE_DEZENA + 1
      invariant dezenas == DezenasDasCelulas(row[PRIMEIRA_COLUNA_DE_DEZENA..i], leitores)
    {
      var dezena := ParseNumber(row[i], leitores);
      assert row[PRIMEIRA_COLUNA_DE_DEZENA..i + 1][..i - PRIMEIRA_COLUNA_DE_DEZENA] == row[PRIMEIRA_COLUNA_DE_DEZENA..i];
      if dezena.Some? && dezena.value >= 1 && dezena.value <= MAIOR_DEZENA {
        dezenas := dezenas + [dezena.value];
      }
      i := i + 1;
    }
  }

  /**
   * `parseRowToConcurso`: `None` for a row it skips, the draw `Concurso.create` builds with
   * the prizes at 0, or the error `create` throws.
   */
  method ParseRowToConcurso(row: seq<Celula>, leitores: Leitores)
    returns (r: Result<Option<Concurso>, ConcursoError>)
    ensures LerLinha(row, leitores).None? ==> r == Success(None)
    ensures LerLinha(row, leitores).Some? ==>
      (r.Failure? <==> !ValidDezenas(LerLinha(row, leitores).value.dezenas)) &&
      (r.Failure? ==> ValidateDezenas(LerLinha(row, leitores).value.dezenas) == Fail(r.error)) &&
      (r.Success? ==> r.value.Some? && Resumo(r.value.value) == LerLinha(row, leitores).value)
    ensures r.Success? && r.value.Some? ==>
      fresh(r.value.value) && r.value.value.premiacoes == SemPremiacoes &&
      r.value.value.masAusentesAnterior == None && r.value.value.repetidasAnterior == None
  {
    if |row| < CELULAS_POR_LINHA {
      return Success(None);
    }
    var numero := ParseNumber(row[0], leitores);
    if numero.None? || numero.value <= 0 {
      return Success(None);
    }
    var data := ParseDate(row[1], leitores);
    if data.None? {
      return Success(None);
    }
    var dezenas := ColetarDezenas(row, leitores);
    if |dezenas| != DEZENAS_POR_CONCURSO {
      return Success(None);
    }
    var arrecadacaoTotal := ParseNumber(row[COLUNA_ARRECADACAO], leitores).GetOr(0);
    var criado := Concurso.Create(numero.value, data.value, dezenas, arrecadacaoTotal, SemPremiacoes);
    match criado
    case Failure(e) =>
      r := Failure(e);
    case Success(c) =>
      r := Success(Some(c));
  }

  /**
   * One pass of the row loop: the draw of the row is pushed; a row that gives `null` or whose
   * `create` throws is skipped (the `catch` logs and continues).
   */
  method AnexarLinha(concursos: seq<Concurso>, row: seq<Celula>, leitores: Leitores)
    returns (depois: seq<Concurso>)
    ensures Resumos(depois) == Resumos(concursos) + Contribuicao(row, leitores)
    ensures forall c :: c in depois ==> c in concursos || fresh(c)
  {
    var lido := ParseRowToConcurso(row, leitores);
    depois := concursos;
    if lido.Success? && lido.value.Some? {
      depois := concursos + [lido.value.value];
      assert Resumos(depois) == Resumos(concursos) + [Resumo(lido.value.value)];
    }
  }

  /**
   * `processLotofacilData` after the sheet is read: fewer than two rows is an error; the
   * header is dropped; each row that yields a draw is pushed, a row that throws is skipped;
   * the draws are sorted ascending by number.
   */
  method ProcessarPlanilha(rows: seq<seq<Celula>>, leitores: Leitores)
    returns (r: Result<seq<Concurso>, ErroPlanilha>)
    ensures r.Failure? <==> |rows| < 2
    ensures r.Success? ==> Resumos(r.value) == Planilha(rows[1..], leitores)
    ensures r.Success? ==> forall c :: c in r.value ==> fresh(c)
  {
    if |rows| < 2 {
      return Failure(PlanilhaSemDados);
    }
    var dataRows := rows[1..];
    var concursos: seq<Concurso> := [];
    var i := 0;
    while i < |dataRows|
      invariant 0 <= i <= |dataRows|
      invariant Resumos(concursos) == Aceitas(dataRows[..i], leitores)
      invariant forall c :: c in concursos ==> fresh(c)
    {
      AceitasPasso(dataRows, i, leitores);
      concursos := AnexarLinha(concursos, dataRows[i], leitores);
      i := i + 1;
    }
    assert dataRows[..i] == dataRows;
    ResumosOrdenados(concursos);
    var ordenados := SortDesc(concursos, NumeroNegado);
    forall c | c in ordenados ensures c in concursos {
      assert c in multiset(ordenados);
    }
    r := Success(ordenados);
  }
}
