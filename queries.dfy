/**
 * `get_random_word` of the quiz back end: the query text and its parameters,
 * the decoding of the `GROUP_CONCAT(f.frase, '|||')` column back into a
 * list, and the mapping of the fetched row to a `Palavra`.
 *
 * The database is an oracle: a function from the query text and its
 * parameters to what executing it gives (a row, no row, or an error).
 */
module Queries {
  import opened Texto

  /** The separator `GROUP_CONCAT` puts between a word's sentences. */
  const SEPARADOR: string := "|||"

  /** The query up to the optional filter: the columns, the joins and the
      sentence aggregate (written in pieces no longer than a line). */
  const CONSULTA_BASE: string := SELECAO + COLUNAS + AGREGADO + ORIGEM + JUNCAO_FRASES

  /** `SELECT` and the word's id and text. */
  const SELECAO: string :=
    "\n        SELECT \n" + "            p.id,\n" + "            p.palavra,\n"

  /** The word's other columns. */
  const COLUNAS: string :=
    "            p.definicao,\n" + "            p.categoria_id,\n" + "            p.dificuldade,\n"

  /** The category name and the sentence aggregate. */
  const AGREGADO: string :=
    "            c.nome as categoria_nome,\n" + "            GROUP_CONCAT(f.frase, "
    + "'|||') as frases\n"

  /** `FROM` and the category join. */
  const ORIGEM: string :=
    "        FROM palavras p\n" + "        JOIN categorias c " + "ON p.categoria_id = c.id\n"

  /** The sentence join: a word without sentences still has its row. */
  const JUNCAO_FRASES: string :=
    "        LEFT JOIN frases f " + "ON p.id = f.palavra_id\n    "

  /** The category filter, up to its placeholder. */
  const FILTRO_PREFIXO: string := " WHERE c.nome = "

  const FILTRO_CATEGORIA: string := FILTRO_PREFIXO + "?"

  const CAUDA: string := " GROUP BY p.id" + " ORDER BY RANDOM() LIMIT 1"

  /** `if categoria:` is false for None and for the empty string. */
  predicate Filtra(categoria: Option<string>)
  {
    categoria.Some? && categoria.value != []
  }

  /** A query assembled the way `get_random_word` assembles it, from a base,
      an optional filter and a tail. */
  function Montada(base: string, filtro: string, cauda: string, categoria: Option<string>): string
  {
    if Filtra(categoria) then base + filtro + cauda else base + cauda
  }

  /** The query text `get_random_word` builds. */
  function ConsultaPara(categoria: Option<string>): string
  {
    Montada(CONSULTA_BASE, FILTRO_CATEGORIA, CAUDA, categoria)
  }

  /** The parameters `get_random_word` binds. */
  function ParametrosPara(categoria: Option<string>): seq<string>
  {
    if Filtra(categoria) then [categoria.value] else []
  }

  /** Number of `?` placeholders in a query. */
  function Marcadores(consulta: string): nat
  {
    if consulta == [] then 0
    else Marcadores(consulta[..|consulta| - 1]) + (if consulta[|consulta| - 1] == '?' then 1 else 0)
  }

  /** The placeholders of a concatenation are those of its parts. */
  lemma {:induction false} MarcadoresConcat(a: string, b: string)
    ensures Marcadores(a + b) == Marcadores(a) + Marcadores(b)
    decreases |b|
  {
    if b == [] {
      assert a + b == a;
    } else {
      var b' := b[..|b| - 1];
      assert (a + b)[..|a + b| - 1] == a + b';
      MarcadoresConcat(a, b');
    }
  }

  /** A text without `?` has no placeholder. */
  lemma {:induction false} SemMarcadores(s: string)
    requires '?' !in s
    ensures Marcadores(s) == 0
    decreases |s|
  {
    if s != [] {
      assert s[..|s| - 1][0..] == s[..|s| - 1];
      assert forall c :: c in s[..|s| - 1] ==> c in s;
      SemMarcadores(s[..|s| - 1]);
    }
  }

  /** With a placeholder-free base, tail and filter prefix, the assembled
      query has one placeholder exactly when it is filtered, and holds the
      filter exactly then. */
  lemma MontadaCoerente(base: string, prefixo: string, cauda: string, categoria: Option<string>)
    requires '?' !in base && '?' !in prefixo && '?' !in cauda
    ensures Marcadores(Montada(base, prefixo + "?", cauda, categoria)) == if Filtra(categoria) then 1 else 0
    ensures Contains(Montada(base, prefixo + "?", cauda, categoria), prefixo + "?") <==> Filtra(categoria)
  {
    var filtro := prefixo + "?";
    SemMarcadores(base);
    SemMarcadores(prefixo);
    SemMarcadores(cauda);
    assert Marcadores("?") == 1 by {
      assert "?"[..0] == [];
    }
    MarcadoresConcat(prefixo, "?");
    if Filtra(categoria) {
      MarcadoresConcat(base, filtro);
      MarcadoresConcat(base + filtro, cauda);
      ContainsMiddle(base, filtro, cauda);
    } else {
      var q := base + cauda;
      MarcadoresConcat(base, cauda);
      assert filtro[|prefixo|] == '?';
      assert '?' !in q;
      if Contains(q, filtro) {
        ContainsElem(q, filtro, '?');
      }
    }
  }

  /** The fixed parts of the query hold no placeholder. */
  lemma SemMarcadorFixo()
    ensures '?' !in CONSULTA_BASE && '?' !in FILTRO_PREFIXO && '?' !in CAUDA
  {
    SemMarcadorBase();
    assert '?' !in FILTRO_PREFIXO;
  }

  /** The base query is built from five pieces, each free of `?`; each
      piece has a lemma of its own so that each proof stays small. */
  lemma SemMarcadorBase()
    ensures '?' !in CONSULTA_BASE
  {
    SemMarcadorSelecao();
    SemMarcadorColunas();
    SemMarcadorAgregado();
    SemMarcadorOrigem();
    SemMarcadorJuncao();
  }

  lemma SemMarcadorSelecao()
    ensures '?' !in SELECAO
  {
  }

  lemma SemMarcadorColunas()
    ensures '?' !in COLUNAS
  {
  }

  lemma SemMarcadorAgregado()
    ensures '?' !in AGREGADO
  {
  }

  lemma SemMarcadorOrigem()
    ensures '?' !in ORIGEM
  {
  }

  lemma SemMarcadorJuncao()
    ensures '?' !in JUNCAO_FRASES
  {
  }

  /** The query has exactly one placeholder per parameter, and at most one
      parameter. */
  lemma MarcadoresConsulta(categoria: Option<string>)
    ensures Marcadores(ConsultaPara(categoria)) == |ParametrosPara(categoria)| <= 1
  {
    SemMarcadorFixo();
    MontadaCoerente(CONSULTA_BASE, FILTRO_PREFIXO, CAUDA, categoria);
  }

  /** The query holds the category filter exactly when a non-empty category
      is given. */
  lemma FiltroConsulta(categoria: Option<string>)
    ensures Contains(ConsultaPara(categoria), FILTRO_CATEGORIA) <==> Filtra(categoria)
  {
    SemMarcadorFixo();
    MontadaCoerente(CONSULTA_BASE, FILTRO_PREFIXO, CAUDA, categoria);
  }

  /** The query construction of `get_random_word`: `query +=` and
      `params.append`, step by step. */
  method MontarConsulta(categoria: Option<string>) returns (consulta: string, params: seq<string>)
    ensures consulta == ConsultaPara(categoria) && params == ParametrosPara(categoria)
  {
    consulta := CONSULTA_BASE;
    params := [];
    if Filtra(categoria) {
      consulta := consulta + FILTRO_CATEGORIA;
      params := params + [categoria.value];
    }
    consulta := consulta + CAUDA;
  }

  // ---------------------------------------------------------------------
  // The sentence column

  /** `result['frases'].split('|||') if result['frases'] else []`: NULL
      (`None`) and the empty string decode to no sentence. */
  function DecodificarFrases(frases: Option<string>): (r: seq<string>)
    ensures frases.None? || frases.value == [] ==> r == []
    ensures forall i :: 0 <= i < |r| ==> !Contains(r[i], SEPARADOR)
  {
    if frases.None? || frases.value == [] then []
    else
      SplitPieces(frases.value, SEPARADOR);
      Split(frases.value, SEPARADOR)
  }

  /** Re-joining the decoded pieces gives back a non-empty column. */
  lemma JuntarDecodificado(coluna: string)
    requires coluna != []
    ensures Join(DecodificarFrases(Some(coluna)), SEPARADOR) == coluna
    ensures |DecodificarFrases(Some(coluna))| == 1 + CountOcc(coluna, SEPARADOR)
  {
    JoinSplit(coluna, SEPARADOR);
    SplitCount(coluna, SEPARADOR);
  }

  /** A sentence that can sit before a separator: no `|||` in it and it does
      not end with `|` (else the separator would be found one place early). */
  predicate FraseSegura(f: string)
  {
    !Contains(f, SEPARADOR) && (f == [] || f[|f| - 1] != '|')
  }

  lemma FraseSeguraPeca(f: string)
    requires FraseSegura(f)
    ensures SafePiece(f, SEPARADOR)
  {
    var g := f + SEPARADOR[..2];
    assert g == f + "||";
    forall k | 0 <= k <= |g| ensures !OccursAt(g, SEPARADOR, k) {
      if k + 3 <= |f| {
        assert g[k..k + 3] == f[k..k + 3];
        assert !OccursAt(f, SEPARADOR, k);
      } else if k + 3 <= |g| {
        assert g[k..k + 3][|f| - 1 - k] == g[|f| - 1] == f[|f| - 1];
      }
    }
  }

  /** Decoding the `|||`-join of sentences s1..sn gives back s1..sn when
      none contains `|||`, none but the last ends with `|`, and the join is
      not the empty string. */
  lemma DecodificarJuncao(frases: seq<string>)
    requires frases != [] && Join(frases, SEPARADOR) != []
    requires forall i :: 0 <= i < |frases| - 1 ==> FraseSegura(frases[i])
    requires !Contains(frases[|frases| - 1], SEPARADOR)
    ensures DecodificarFrases(Some(Join(frases, SEPARADOR))) == frases
  {
    forall i | 0 <= i < |frases| - 1 ensures SafePiece(frases[i], SEPARADOR) {
      FraseSeguraPeca(frases[i]);
    }
    SplitJoin(frases, SEPARADOR);
  }

  /** Without the trailing-`|` condition the round trip fails: the sentences
      "a|" and "b" come back as "a" and "|b". */
  lemma BarraFinalQuebraDecodificacao()
    ensures !Contains("a|", SEPARADOR) && !Contains("b", SEPARADOR)
    ensures DecodificarFrases(Some(Join(["a|", "b"], SEPARADOR))) == ["a", "|b"]
  {
    var s := Join(["a|", "b"], SEPARADOR);
    assert ["a|", "b"][1..] == ["b"];
    assert s == "a|" + SEPARADOR + "b";
    var t := "a" + SEPARADOR + "|b";
    assert |s| == |t| == 6;
    forall i | 0 <= i < 6 ensures s[i] == t[i] {
      assert s[i] == '|' <==> 1 <= i <= 4;
      assert t[i] == '|' <==> 1 <= i <= 4;
    }
    assert s == t;
    assert !Contains("a", SEPARADOR);
    assert SafePiece("a", SEPARADOR) by {
      var u := "a" + SEPARADOR[..2];
      assert |u| == 3 && u[0] == 'a';
      forall k | 0 <= k <= |u| ensures !OccursAt(u, SEPARADOR, k) {
        if k == 0 {
          assert u[0..3][0] == 'a';
        }
      }
    }
    SplitAfterSafePiece("a", SEPARADOR, "|b");
    assert !Contains("|b", SEPARADOR);
    SplitWithoutSep("|b", SEPARADOR);
  }

  // ---------------------------------------------------------------------
  // The row and the word

  /** The row the query returns (`sqlite3.Row`). */
  datatype Registro = Registro(
    id: int, palavra: string, definicao: string, categoriaId: int,
    dificuldade: int, categoriaNome: string, frases: Option<string>)

  /** The `Palavra` dataclass; `variacoes` keeps its default None here. */
  datatype Palavra = Palavra(
    id: int, palavra: string, definicao: string, categoriaId: int,
    dificuldade: int, frases: seq<string>, variacoes: Option<seq<string>>,
    categoriaNome: Option<string>)

  /** The `Palavra(...)` construction from a fetched row: the scalar columns
      are copied unchanged and the sentence column is decoded. */
  function ParaPalavra(r: Registro): (p: Palavra)
    ensures p.id == r.id && p.palavra == r.palavra && p.definicao == r.definicao
    ensures p.categoriaId == r.categoriaId && p.dificuldade == r.dificuldade
    ensures p.categoriaNome == Some(r.categoriaNome) && p.variacoes == None
    ensures p.frases == DecodificarFrases(r.frases)
  {
    Palavra(r.id, r.palavra, r.definicao, r.categoriaId, r.dificuldade,
            DecodificarFrases(r.frases), None, Some(r.categoriaNome))
  }

  /** What executing the query gives. */
  datatype Execucao = Linha(registro: Registro) | SemLinha | ErroSql | ErroInesperado

  /** `get_random_word`: None when there is no row or the database raises,
      otherwise the row as a `Palavra`. */
  method GetRandomWord(categoria: Option<string>, executar: (string, seq<string>) -> Execucao)
    returns (r: Option<Palavra>)
    ensures r.Some? <==> executar(ConsultaPara(categoria), ParametrosPara(categoria)).Linha?
    ensures r.Some? ==> r.value == ParaPalavra(executar(ConsultaPara(categoria), ParametrosPara(categoria)).registro)
  {
    var consulta, params := MontarConsulta(categoria);
    var resultado := executar(consulta, params);
    match resultado
    case Linha(reg) => r := Some(ParaPalavra(reg));
    case SemLinha => r := None;
    case ErroSql => r := None;
    case ErroInesperado => r := None;
  }
}
