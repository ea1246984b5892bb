/**
 * The computations of the listing view, src/app/lista/page.tsx: the category
 * filter, the badge counts, the availability label and the text of the CSV
 * export. They work on the list the GET handler returns.
 */
module Lista {
  import opened Wrappers
  import opened Text
  import opened CadastroSchema

  // ---------------------------------------------------------------------------
  // Filtering and counting

  /** `Array.prototype.filter`: the records satisfying `p`, in their order. */
  function Selecionar(s: seq<Cadastro>, p: Cadastro -> bool): (r: seq<Cadastro>)
    ensures |r| <= |s|
    ensures forall i :: 0 <= i < |r| ==> p(r[i]) && r[i] in s
  {
    if s == [] then [] else (if p(s[0]) then [s[0]] else []) + Selecionar(s[1..], p)
  }

  /**
   * The predicate the `cadastrosFiltrados` filter applies for the chosen
   * filter value: `motoristas` keeps the drivers, a day value keeps that
   * availability, and every other value keeps everything.
   */
  predicate Mostra(filtro: string, c: Cadastro)
    ensures Mostra(filtro, c) <==>
              (filtro == "motoristas" ==> c.dados.motorista) &&
              (filtro in Disponibilidades ==> c.dados.disponibilidade == filtro)
  {
    if filtro == "todos" then true
    else if filtro == "motoristas" then c.dados.motorista
    else if filtro == "ambos" then c.dados.disponibilidade == "ambos"
    else if filtro == "sabado" then c.dados.disponibilidade == "sabado"
    else if filtro == "domingo" then c.dados.disponibilidade == "domingo"
    else true
  }

  function Criterio(filtro: string): Cadastro -> bool {
    (c: Cadastro) => Mostra(filtro, c)
  }

  /** `cadastrosFiltrados`: records of the list the filter shows, and no more of them than the list has. */
  function Filtrados(s: seq<Cadastro>, filtro: string): (r: seq<Cadastro>)
    ensures |r| <= |s|
    ensures forall i :: 0 <= i < |r| ==> Mostra(filtro, r[i]) && r[i] in s
  {
    Selecionar(s, Criterio(filtro))
  }

  /** The badge predicates used by `estatisticas`. */
  predicate EhMotorista(c: Cadastro) {
    c.dados.motorista
  }

  function Disponivel(d: string): Cadastro -> bool {
    (c: Cadastro) => c.dados.disponibilidade == d
  }

  datatype Estatisticas = Estatisticas(total: nat, motoristas: nat, ambos: nat, sabado: nat, domingo: nat)

  /** `estatisticas`: every count is the length of a filter over the whole list. */
  function CalcularEstatisticas(s: seq<Cadastro>): (e: Estatisticas)
    ensures e.total == |s|
    ensures e.motoristas <= e.total && e.ambos <= e.total && e.sabado <= e.total && e.domingo <= e.total
  {
    Estatisticas(
      |s|,
      |Selecionar(s, EhMotorista)|,
      |Selecionar(s, Disponivel("ambos"))|,
      |Selecionar(s, Disponivel("sabado"))|,
      |Selecionar(s, Disponivel("domingo"))|)
  }

  /** `r` is `s` with some elements dropped, the rest in their original order. */
  ghost predicate IsSubsequence(r: seq<Cadastro>, s: seq<Cadastro>)
    decreases |s|
  {
    if r == [] then true
    else if s == [] then false
    else (r[0] == s[0] && IsSubsequence(r[1..], s[1..])) || IsSubsequence(r, s[1..])
  }

  lemma {:induction false} SelecionarSubsequence(s: seq<Cadastro>, p: Cadastro -> bool)
    ensures IsSubsequence(Selecionar(s, p), s)
    decreases |s|
  {
    if s != [] {
      SelecionarSubsequence(s[1..], p);
      var r := Selecionar(s, p);
      if p(s[0]) {
        assert r == [s[0]] + Selecionar(s[1..], p);
        assert r[0] == s[0] && r[1..] == Selecionar(s[1..], p);
      } else {
        assert r == Selecionar(s[1..], p);
      }
    }
  }

  /** Filtering a concatenation filters each part: relative order is kept. */
  lemma {:induction false} SelecionarConcat(a: seq<Cadastro>, b: seq<Cadastro>, p: Cadastro -> bool)
    ensures Selecionar(a + b, p) == Selecionar(a, p) + Selecionar(b, p)
    decreases |a|
  {
    if a != [] {
      assert (a + b)[0] == a[0] && (a + b)[1..] == a[1..] + b;
      SelecionarConcat(a[1..], b, p);
      var h := if p(a[0]) then [a[0]] else [];
      calc {
        Selecionar(a + b, p);
        h + Selecionar(a[1..] + b, p);
        h + (Selecionar(a[1..], p) + Selecionar(b, p));
        (h + Selecionar(a[1..], p)) + Selecionar(b, p);
      }
    } else {
      assert a + b == b;
    }
  }

  /** Each record is kept as often as it occurs when it satisfies `p`, and never otherwise. */
  lemma {:induction false} SelecionarMultiplicidade(s: seq<Cadastro>, p: Cadastro -> bool, x: Cadastro)
    ensures multiset(Selecionar(s, p))[x] == if p(x) then multiset(s)[x] else 0
    decreases |s|
  {
    if s != [] {
      SelecionarMultiplicidade(s[1..], p, x);
      assert s == [s[0]] + s[1..];
    }
  }

  /** A record that fails `p` makes the filtered list strictly shorter. */
  lemma {:induction false} SelecionarDescarta(s: seq<Cadastro>, p: Cadastro -> bool, k: nat)
    requires k < |s| && !p(s[k])
    ensures |Selecionar(s, p)| < |s|
    decreases |s|
  {
    if k > 0 {
      SelecionarDescarta(s[1..], p, k - 1);
    }
  }

  lemma {:induction false} SelecionarTudo(s: seq<Cadastro>, p: Cadastro -> bool)
    requires forall i :: 0 <= i < |s| ==> p(s[i])
    ensures Selecionar(s, p) == s
    decreases |s|
  {
    if s != [] {
      SelecionarTudo(s[1..], p);
    }
  }

  lemma {:induction false} SelecionarExtensional(s: seq<Cadastro>, p: Cadastro -> bool, q: Cadastro -> bool)
    requires forall i :: 0 <= i < |s| ==> p(s[i]) == q(s[i])
    ensures Selecionar(s, p) == Selecionar(s, q)
    decreases |s|
  {
    if s != [] {
      SelecionarExtensional(s[1..], p, q);
    }
  }

  /** "todos" and every unrecognised filter value show the whole list. */
  lemma FiltroSemRestricao(s: seq<Cadastro>, filtro: string)
    requires filtro !in {"motoristas", "ambos", "sabado", "domingo"}
    ensures Filtrados(s, filtro) == s
  {
    SelecionarTudo(s, Criterio(filtro));
  }

  /** "motoristas" keeps exactly the drivers, each as often as it occurs. */
  lemma FiltroMotoristas(s: seq<Cadastro>, x: Cadastro)
    ensures multiset(Filtrados(s, "motoristas"))[x] == if x.dados.motorista then multiset(s)[x] else 0
  {
    SelecionarMultiplicidade(s, Criterio("motoristas"), x);
  }

  /** An availability filter keeps exactly the records with that availability. */
  lemma FiltroDisponibilidade(s: seq<Cadastro>, d: string, x: Cadastro)
    requires d in Disponibilidades
    ensures multiset(Filtrados(s, d))[x] == if x.dados.disponibilidade == d then multiset(s)[x] else 0
  {
    SelecionarMultiplicidade(s, Criterio(d), x);
  }

  /** Every filter shows a subsequence of the list, in list order. */
  lemma FiltroPreservaOrdem(s: seq<Cadastro>, t: seq<Cadastro>, filtro: string)
    ensures IsSubsequence(Filtrados(s, filtro), s)
    ensures Filtrados(s + t, filtro) == Filtrados(s, filtro) + Filtrados(t, filtro)
  {
    SelecionarSubsequence(s, Criterio(filtro));
    SelecionarConcat(s, t, Criterio(filtro));
  }

  /** Each button's badge equals the number of rows its filter shows. */
  lemma ContagensDosBotoes(s: seq<Cadastro>)
    ensures CalcularEstatisticas(s).total == |Filtrados(s, "todos")|
    ensures CalcularEstatisticas(s).motoristas == |Filtrados(s, "motoristas")|
    ensures CalcularEstatisticas(s).ambos == |Filtrados(s, "ambos")|
    ensures CalcularEstatisticas(s).sabado == |Filtrados(s, "sabado")|
    ensures CalcularEstatisticas(s).domingo == |Filtrados(s, "domingo")|
  {
    FiltroSemRestricao(s, "todos");
    SelecionarExtensional(s, EhMotorista, Criterio("motoristas"));
    SelecionarExtensional(s, Disponivel("ambos"), Criterio("ambos"));
    SelecionarExtensional(s, Disponivel("sabado"), Criterio("sabado"));
    SelecionarExtensional(s, Disponivel("domingo"), Criterio("domingo"));
  }

  /** With every availability in the enum, the three availability counts add up to the total. */
  lemma {:induction false} SomaDisponibilidades(s: seq<Cadastro>)
    requires forall i :: 0 <= i < |s| ==> s[i].dados.disponibilidade in Disponibilidades
    ensures CalcularEstatisticas(s).ambos + CalcularEstatisticas(s).sabado + CalcularEstatisticas(s).domingo
            == CalcularEstatisticas(s).total
    decreases |s|
  {
    if s != [] {
      SomaDisponibilidades(s[1..]);
    }
  }

  // ---------------------------------------------------------------------------
  // Labels and CSV export

  /** `getDisponibilidadeText`. */
  function TextoDisponibilidade(d: string): (t: string)
    ensures d !in Disponibilidades ==> t == d
  {
    if d == "ambos" then "Ambos os dias"
    else if d == "sabado" then "Sábado"
    else if d == "domingo" then "Domingo"
    else d
  }

  /** The three availabilities get three different labels, none of which is an availability itself. */
  lemma TextoDisponibilidadeInjetivo(a: string, b: string)
    requires a in Disponibilidades && b in Disponibilidades
    ensures TextoDisponibilidade(a) == TextoDisponibilidade(b) ==> a == b
    ensures TextoDisponibilidade(a) !in Disponibilidades
  {
  }

  const Cabecalho: seq<string> :=
    ["Nome Completo", "Idade", "Celular", "Motorista", "Disponibilidade", "Instrumento", "Congregação", "Data do Cadastro"]

  function Aspas(s: string): string {
    "\"" + s + "\""
  }

  /**
   * The eight cells of a record's row. `formatarData` stands for
   * `new Date(dataCadastro).toLocaleDateString("pt-BR")`.
   */
  function CamposCsv(c: Cadastro, formatarData: string -> string): (r: seq<string>)
    ensures |r| == |Cabecalho|
  {
    [ Aspas(c.dados.nomeCompleto),
      IntToString(c.dados.idade),
      Aspas(c.dados.celular),
      if c.dados.motorista then "Sim" else "Não",
      TextoDisponibilidade(c.dados.disponibilidade),
      if c.dados.instrumento.Some? && c.dados.instrumento.value != "" then Aspas(c.dados.instrumento.value) else "",
      Aspas(c.dados.congregacao),
      formatarData(c.dataCadastro) ]
  }

  /** A record's row: its cells joined by commas, so it opens with the quoted name and holds at least seven commas. */
  function LinhaCsv(c: Cadastro, formatarData: string -> string): (r: string)
    ensures Aspas(c.dados.nomeCompleto) <= r
    ensures Occurrences(r, ',') >= 7
  {
    JoinSeparators(CamposCsv(c, formatarData), ',');
    Join(CamposCsv(c, formatarData), ',')
  }

  function LinhasCsv(s: seq<Cadastro>, formatarData: string -> string): (r: seq<string>)
    ensures |r| == |s|
  {
    seq(|s|, i requires 0 <= i < |s| => LinhaCsv(s[i], formatarData))
  }

  /**
   * The text `exportarCSV` builds: the header line, then one line per record
   * of the whole list. It opens with the header and, read back line by line,
   * has at least one line more than the list has records.
   */
  function ExportarCsv(cadastros: seq<Cadastro>, formatarData: string -> string): (r: string)
    ensures Join(Cabecalho, ',') <= r
    ensures |Split(r, '\n')| >= 1 + |cadastros|
  {
    var linhas := [Join(Cabecalho, ',')] + LinhasCsv(cadastros, formatarData);
    JoinSeparators(linhas, '\n');
    Join(linhas, '\n')
  }

  /** The record's free-text fields and its formatted date do not contain `x`. */
  predicate SemCaractere(c: Cadastro, formatarData: string -> string, x: char) {
    && x !in c.dados.nomeCompleto
    && x !in c.dados.celular
    && x !in c.dados.disponibilidade
    && (c.dados.instrumento.Some? ==> x !in c.dados.instrumento.value)
    && x !in c.dados.congregacao
    && x !in formatarData(c.dataCadastro)
  }

  lemma CamposSemCaractere(c: Cadastro, formatarData: string -> string, x: char)
    requires x == ',' || x == '\n'
    requires SemCaractere(c, formatarData, x)
    ensures forall i :: 0 <= i < |CamposCsv(c, formatarData)| ==> x !in CamposCsv(c, formatarData)[i]
  {
    var r := CamposCsv(c, formatarData);
    var idade := IntToString(c.dados.idade);
    assert x !in idade by {
      if c.dados.idade >= 0 {
        assert forall k :: 0 <= k < |idade| ==> '0' <= idade[k] <= '9';
      } else {
        assert idade == [idade[0]] + idade[1..];
        assert forall k :: 0 <= k < |idade[1..]| ==> '0' <= idade[1..][k] <= '9';
      }
    }
  }

  /**
   * A row whose text fields hold no comma has exactly eight comma-separated
   * fields, the cells of `CamposCsv`: name, phone and congregation quoted,
   * age bare, driver as Sim/Não, the availability label, the instrument
   * quoted or empty, and the date.
   */
  lemma LinhaTemOitoCampos(c: Cadastro, formatarData: string -> string)
    requires SemCaractere(c, formatarData, ',')
    ensures Split(LinhaCsv(c, formatarData), ',') == CamposCsv(c, formatarData)
    ensures |Split(LinhaCsv(c, formatarData), ',')| == 8
  {
    CamposSemCaractere(c, formatarData, ',');
    SplitJoin(CamposCsv(c, formatarData), ',');
  }

  /** The header line: the eight column names, comma-separated. */
  lemma LinhaDeCabecalho()
    ensures Join(Cabecalho, ',') ==
            "Nome Completo," + ("Idade," + ("Celular," + ("Motorista," + ("Disponibilidade," +
            ("Instrumento," + ("Congregação," + "Data do Cadastro"))))))
  {
    JoinOitoCampos(Cabecalho[0], Cabecalho[1], Cabecalho[2], Cabecalho[3],
                   Cabecalho[4], Cabecalho[5], Cabecalho[6], Cabecalho[7]);
  }

  lemma LinhaSemQuebra(c: Cadastro, formatarData: string -> string)
    requires SemCaractere(c, formatarData, '\n')
    ensures '\n' !in LinhaCsv(c, formatarData)
  {
    CamposSemCaractere(c, formatarData, '\n');
    JoinAvoids(CamposCsv(c, formatarData), ',', '\n');
  }

  /**
   * When no field holds a line break, the export has exactly one line more
   * than the whole list: the header, then each record's row in list order.
   */
  lemma CsvLinhas(cadastros: seq<Cadastro>, formatarData: string -> string)
    requires forall i :: 0 <= i < |cadastros| ==> SemCaractere(cadastros[i], formatarData, '\n')
    ensures |Split(ExportarCsv(cadastros, formatarData), '\n')| == 1 + |cadastros|
    ensures Split(ExportarCsv(cadastros, formatarData), '\n')[0] == Join(Cabecalho, ',')
    ensures forall i :: 0 <= i < |cadastros| ==>
              Split(ExportarCsv(cadastros, formatarData), '\n')[i + 1] == LinhaCsv(cadastros[i], formatarData)
  {
    CabecalhoSemQuebra();
    LinhasDepoisDe(Join(Cabecalho, ','), cadastros, formatarData);
  }

  lemma CabecalhoSemQuebra()
    ensures '\n' !in Join(Cabecalho, ',')
  {
    JoinAvoids(Cabecalho, ',', '\n');
  }

  /** Any line-break-free first line followed by the records' rows splits back into those lines. */
  lemma LinhasDepoisDe(primeira: string, cadastros: seq<Cadastro>, formatarData: string -> string)
    requires '\n' !in primeira
    requires forall i :: 0 <= i < |cadastros| ==> SemCaractere(cadastros[i], formatarData, '\n')
    ensures Split(Join([primeira] + LinhasCsv(cadastros, formatarData), '\n'), '\n') == [primeira] + LinhasCsv(cadastros, formatarData)
  {
    var linhas := [primeira] + LinhasCsv(cadastros, formatarData);
    forall i | 0 <= i < |linhas| ensures '\n' !in linhas[i] {
      if i > 0 {
        LinhaSemQuebra(cadastros[i - 1], formatarData);
      }
    }
    SplitJoin(linhas, '\n');
  }

  /** The export ignores the active filter: when the filter hides a record, the CSV still has more lines than the header plus the visible rows. */
  lemma CsvIgnoraFiltro(cadastros: seq<Cadastro>, formatarData: string -> string, filtro: string, k: nat)
    requires forall i :: 0 <= i < |cadastros| ==> SemCaractere(cadastros[i], formatarData, '\n')
    requires k < |cadastros| && !Mostra(filtro, cadastros[k])
    ensures |Split(ExportarCsv(cadastros, formatarData), '\n')| > 1 + |Filtrados(cadastros, filtro)|
  {
    CsvLinhas(cadastros, formatarData);
    SelecionarDescarta(cadastros, Criterio(filtro), k);
  }

  /** The cells of the documented example record: Ana Silva, 30, a driver available on Saturday, no instrument, Centro. */
  lemma ExemploAnaSilvaCampos(formatarData: string -> string, id: string, dataCadastro: string)
    ensures CamposCsv(Cadastro(id, Dados("Ana Silva", 30, "11999999999", true, "sabado", None, "Centro"), dataCadastro), formatarData)
            == [Aspas("Ana Silva"), "30", Aspas("11999999999"), "Sim", "Sábado", "", Aspas("Centro"), formatarData(dataCadastro)]
  {
    assert IntToString(30) == "30";
  }

  /** Joining eight cells with commas. */
  lemma {:induction false} JoinOitoCampos(a: string, b: string, c: string, d: string, e: string, f: string, g: string, h: string)
    ensures Join([a, b, c, d, e, f, g, h], ',') == a + "," + (b + "," + (c + "," + (d + "," + (e + "," + (f + "," + (g + "," + h))))))
  {
    var r := [a, b, c, d, e, f, g, h];
    assert Join(r[6..], ',') == g + "," + h by { assert r[6..] == [g, h]; }
    assert Join(r[5..], ',') == f + "," + (g + "," + h) by { assert r[5..][1..] == r[6..]; }
    assert Join(r[4..], ',') == e + "," + (f + "," + (g + "," + h)) by { assert r[4..][1..] == r[5..]; }
    assert Join(r[3..], ',') == d + "," + (e + "," + (f + "," + (g + "," + h))) by { assert r[3..][1..] == r[4..]; }
    assert Join(r[2..], ',') == c + "," + (d + "," + (e + "," + (f + "," + (g + "," + h)))) by { assert r[2..][1..] == r[3..]; }
    assert Join(r[1..], ',') == b + "," + (c + "," + (d + "," + (e + "," + (f + "," + (g + "," + h))))) by { assert r[1..][1..] == r[2..]; }
  }

  /** The documented example row's cells, joined. */
  lemma TextoAnaSilva(data: string)
    ensures Join([Aspas("Ana Silva"), "30", Aspas("11999999999"), "Sim", "Sábado", "", Aspas("Centro"), data], ',')
            == "\"Ana Silva\"," + ("30," + ("\"11999999999\"," + ("Sim," + ("Sábado," + ("," + ("\"Centro\"," + data))))))
  {
    JoinOitoCampos(Aspas("Ana Silva"), "30", Aspas("11999999999"), "Sim", "Sábado", "", Aspas("Centro"), data);
    assert Aspas("Ana Silva") + "," == "\"Ana Silva\",";
    assert Aspas("11999999999") + "," == "\"11999999999\",";
    assert Aspas("Centro") + "," == "\"Centro\",";
  }

  /** The documented example row, up to the formatted date. */
  lemma ExemploAnaSilva(formatarData: string -> string, id: string, dataCadastro: string)
    ensures LinhaCsv(Cadastro(id, Dados("Ana Silva", 30, "11999999999", true, "sabado", None, "Centro"), dataCadastro), formatarData)
            == "\"Ana Silva\"," + ("30," + ("\"11999999999\"," + ("Sim," + ("Sábado," + ("," + ("\"Centro\"," + formatarData(dataCadastro)))))))
  {
    var c := Cadastro(id, Dados("Ana Silva", 30, "11999999999", true, "sabado", None, "Centro"), dataCadastro);
    assert LinhaCsv(c, formatarData) == Join(CamposCsv(c, formatarData), ',');
    ExemploAnaSilvaCampos(formatarData, id, dataCadastro);
    TextoAnaSilva(formatarData(dataCadastro));
  }
}
