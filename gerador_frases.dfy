/**
 * The example-sentence generator of the quiz back end (class
 * `GeradorFrases`): three fixed fallback sentences, the cleaning of a
 * language-model reply into at most three lines padded with fallbacks, and
 * the `frases` table that stored sentences are read from and appended to.
 *
 * The model client, its network call and the database connection are not
 * modelled: whether a client exists, the reply (content or failure) and
 * whether the table read and write succeed are inputs.
 */
module Gerador {
  import opened Texto

  /** Prefixes the stored-sentence lookup excludes with `NOT LIKE '...%'`. */
  const PREFIXO_EXEMPLO: string := "Esta é uma frase de exemplo"
  const PREFIXO_OUTRO: string := "Aqui está outro exemplo"

  /** The word in single quotes, as every fallback sentence shows it. */
  function Citada(palavra: string): string
  {
    "'" + palavra + "'"
  }

  /** The list `frases_padrao` of `gerar_frase_padrao`. */
  function Padroes(palavra: string): (r: seq<string>)
    ensures |r| == 3
  {
    [ PREFIXO_EXEMPLO + " usando a palavra " + Citada(palavra) + ".",
      PREFIXO_OUTRO + " com " + Citada(palavra) + ".",
      "E esta é a terceira frase com " + Citada(palavra) + "." ]
  }

  /** `gerar_frase_padrao(palavra, indice)`: the fallback numbered `indice mod 3`
      (Python's `%` and Dafny's agree on the positive divisor 3); every one of
      them quotes the word. */
  function GerarFrasePadrao(palavra: string, indice: int): (r: string)
    ensures r == Padroes(palavra)[indice % 3]
    ensures Contains(r, Citada(palavra))
  {
    var t := Padroes(palavra);
    ContainsMiddle(PREFIXO_EXEMPLO + " usando a palavra ", Citada(palavra), ".");
    ContainsMiddle(PREFIXO_OUTRO + " com ", Citada(palavra), ".");
    ContainsMiddle("E esta é a terceira frase com ", Citada(palavra), ".");
    t[indice % 3]
  }

  /** The three fallbacks differ from one another, whatever the word. */
  lemma PadroesDistintos(palavra: string)
    ensures forall i, j :: 0 <= i < j < 3 ==> Padroes(palavra)[i] != Padroes(palavra)[j]
  {
    var t := Padroes(palavra);
    assert t[0][0] == 'E' && t[0][1] == 's';
    assert t[1][0] == 'A';
    assert t[2][0] == 'E' && t[2][1] == ' ';
  }

  // ---------------------------------------------------------------------
  // The `frases` table and the stored-sentence lookup

  /** One row of the `frases` table. */
  datatype LinhaFrase = LinhaFrase(palavraId: int, frase: string)

  /** The rows inserted for `frases`, one per sentence, in order. */
  function Linhas(palavraId: int, frases: seq<string>): (r: seq<LinhaFrase>)
    ensures |r| == |frases|
    ensures forall i :: 0 <= i < |r| ==> r[i] == LinhaFrase(palavraId, frases[i])
  {
    seq(|frases|, i requires 0 <= i < |frases| => LinhaFrase(palavraId, frases[i]))
  }

  /** SQLite's default LIKE folds ASCII letters only. */
  function DobraAscii(c: char): char
  {
    if 'A' <= c <= 'Z' then (c as int + 32) as char else c
  }

  /** `s LIKE 'prefixo%'` for a prefix without wildcards. */
  predicate ComecaComLike(s: string, prefixo: string)
  {
    |prefixo| <= |s| && forall i :: 0 <= i < |prefixo| ==> DobraAscii(s[i]) == DobraAscii(prefixo[i])
  }

  /** A sentence the lookup keeps: it does not look like fallback 0 or 1. */
  predicate NaoPadrao(f: string)
  {
    !ComecaComLike(f, PREFIXO_EXEMPLO) && !ComecaComLike(f, PREFIXO_OUTRO)
  }

  /** The lookup excludes fallbacks 0 and 1 but keeps fallback 2, whose
      prefix is not listed. */
  lemma FiltroDosPadroes(palavra: string)
    ensures !NaoPadrao(GerarFrasePadrao(palavra, 0))
    ensures !NaoPadrao(GerarFrasePadrao(palavra, 1))
    ensures NaoPadrao(GerarFrasePadrao(palavra, 2))
  {
    var t := Padroes(palavra);
    assert t[0][..|PREFIXO_EXEMPLO|] == PREFIXO_EXEMPLO;
    assert t[1][..|PREFIXO_OUTRO|] == PREFIXO_OUTRO;
    assert t[2][0] == 'E' && t[2][1] == ' ';
    assert DobraAscii(t[2][1]) != DobraAscii(PREFIXO_EXEMPLO[1]);
    assert DobraAscii(t[2][0]) != DobraAscii(PREFIXO_OUTRO[0]);
  }

  /** The sentences stored for a word, in rowid order. */
  function FrasesDe(linhas: seq<LinhaFrase>, palavraId: int): seq<string>
  {
    if linhas == [] then []
    else (if linhas[0].palavraId == palavraId then [linhas[0].frase] else []) + FrasesDe(linhas[1..], palavraId)
  }

  /** The sentences the lookup keeps, in order. */
  function FiltrarPadroes(frases: seq<string>): (r: seq<string>)
    ensures |r| <= |frases|
    ensures forall i :: 0 <= i < |r| ==> NaoPadrao(r[i]) && r[i] in frases
    ensures forall i :: 0 <= i < |frases| && NaoPadrao(frases[i]) ==> frases[i] in r
    ensures (forall i :: 0 <= i < |frases| ==> NaoPadrao(frases[i])) ==> r == frases
  {
    if frases == [] then []
    else
      var resto := frases[1..];
      assert forall i :: 1 <= i < |frases| ==> frases[i] == resto[i - 1];
      (if NaoPadrao(frases[0]) then [frases[0]] else []) + FiltrarPadroes(resto)
  }

  /** One sentence is kept exactly when it passes both `NOT LIKE`s; with
      `FiltrarConcat` this fixes the lookup's result and its order. */
  lemma FiltrarUm(f: string)
    ensures FiltrarPadroes([f]) == if NaoPadrao(f) then [f] else []
  {
    assert [f][1..] == [];
  }

  /** `SELECT frase FROM frases WHERE palavra_id = ? AND frase NOT LIKE ...
      AND frase NOT LIKE ... ORDER BY rowid` (the caller keeps the first 3,
      which is what `LIMIT 3` returns). */
  function FrasesExistentes(linhas: seq<LinhaFrase>, palavraId: int): seq<string>
  {
    FiltrarPadroes(FrasesDe(linhas, palavraId))
  }

  /** The sentences of a word in two runs of rows are those of each run. */
  lemma {:induction false} FrasesDeConcat(a: seq<LinhaFrase>, b: seq<LinhaFrase>, palavraId: int)
    ensures FrasesDe(a + b, palavraId) == FrasesDe(a, palavraId) + FrasesDe(b, palavraId)
  {
    if a != [] {
      assert (a + b)[1..] == a[1..] + b;
      FrasesDeConcat(a[1..], b, palavraId);
    } else {
      assert a + b == b;
    }
  }

  /** The inserted rows hold the inserted sentences for their word and none
      for any other. */
  lemma {:induction false} FrasesDeLinhas(palavraId: int, frases: seq<string>, outro: int)
    ensures FrasesDe(Linhas(palavraId, frases), outro) == if outro == palavraId then frases else []
  {
    if frases != [] {
      var l := Linhas(palavraId, frases);
      assert l[1..] == Linhas(palavraId, frases[1..]);
      FrasesDeLinhas(palavraId, frases[1..], outro);
      if outro == palavraId {
        assert frases == [frases[0]] + frases[1..];
      }
    }
  }

  /** Appending rows for one word extends that word's sentences by exactly
      those sentences, with no duplicate check, and no other word's. */
  lemma FrasesDeAcrescimo(linhas: seq<LinhaFrase>, palavraId: int, frases: seq<string>, outro: int)
    ensures FrasesDe(linhas + Linhas(palavraId, frases), outro)
         == FrasesDe(linhas, outro) + (if outro == palavraId then frases else [])
  {
    FrasesDeConcat(linhas, Linhas(palavraId, frases), outro);
    FrasesDeLinhas(palavraId, frases, outro);
  }

  /** The lookup filters a concatenation piecewise. */
  lemma {:induction false} FiltrarConcat(a: seq<string>, b: seq<string>)
    ensures FiltrarPadroes(a + b) == FiltrarPadroes(a) + FiltrarPadroes(b)
  {
    if a != [] {
      assert (a + b)[1..] == a[1..] + b;
      FiltrarConcat(a[1..], b);
    } else {
      assert a + b == b;
    }
  }

  /** After inserting `frases` for a word, the lookup for that word returns
      what it returned before followed by the inserted sentences it keeps. */
  lemma ExistentesAposInsercao(linhas: seq<LinhaFrase>, palavraId: int, frases: seq<string>)
    ensures FrasesExistentes(linhas + Linhas(palavraId, frases), palavraId)
         == FrasesExistentes(linhas, palavraId) + FiltrarPadroes(frases)
  {
    FrasesDeAcrescimo(linhas, palavraId, frases, palavraId);
    FiltrarConcat(FrasesDe(linhas, palavraId), frases);
  }

  /** The `frases` table, as its rows in rowid order. */
  class TabelaFrases {
    var linhas: seq<LinhaFrase>

    constructor (linhas: seq<LinhaFrase>)
      ensures this.linhas == linhas
    {
      this.linhas := linhas;
    }

    /** The insert loop of `gerar_frases`: one row per sentence, in order,
        committed together. */
    method InserirFrases(palavraId: int, frases: seq<string>)
      modifies this
      ensures linhas == old(linhas) + Linhas(palavraId, frases)
    {
      for i := 0 to |frases|
        invariant linhas == old(linhas) + Linhas(palavraId, frases[..i])
      {
        assert Linhas(palavraId, frases[..i + 1]) == Linhas(palavraId, frases[..i]) + [LinhaFrase(palavraId, frases[i])];
        linhas := linhas + [LinhaFrase(palavraId, frases[i])];
      }
      assert frases[..|frases|] == frases;
    }
  }

  // ---------------------------------------------------------------------
  // Cleaning the reply

  /** `[f.strip() for f in linhas if f.strip()]`: the non-blank lines,
      stripped, in their original order. */
  function LimparLinhas(linhas: seq<string>): (r: seq<string>)
    ensures |r| <= |linhas|
    ensures forall i :: 0 <= i < |r| ==> Limpa(r[i])
  {
    if linhas == [] then []
    else
      StripIdempotent(linhas[0]);
      (if Strip(linhas[0]) != [] then [Strip(linhas[0])] else []) + LimparLinhas(linhas[1..])
  }

  /** A cleaned line: non-blank and already stripped. */
  predicate Limpa(f: string)
  {
    f != [] && Strip(f) == f
  }

  /** One line gives its strip, or nothing when it is blank. */
  lemma LimparUma(l: string)
    ensures LimparLinhas([l]) == if Strip(l) != [] then [Strip(l)] else []
  {
    assert [l][1..] == [];
  }

  /** The comprehension `[f(l) for l in xs if f(l)]` for any `f`: what
      cleaning does with the line-level step left abstract. */
  function Mapeadas(f: string -> string, xs: seq<string>): seq<string>
  {
    if xs == [] then [] else (if f(xs[0]) != [] then [f(xs[0])] else []) + Mapeadas(f, xs[1..])
  }

  lemma {:induction false} MapeadasConcat(f: string -> string, a: seq<string>, b: seq<string>)
    ensures Mapeadas(f, a + b) == Mapeadas(f, a) + Mapeadas(f, b)
  {
    if a != [] {
      assert (a + b)[0] == a[0] && (a + b)[1..] == a[1..] + b;
      MapeadasConcat(f, a[1..], b);
    } else {
      assert a + b == b;
    }
  }

  lemma {:induction false} MapeadasCompleta(f: string -> string, xs: seq<string>)
    ensures forall i :: 0 <= i < |xs| && f(xs[i]) != [] ==> f(xs[i]) in Mapeadas(f, xs)
  {
    if xs != [] {
      MapeadasCompleta(f, xs[1..]);
      assert forall i :: 1 <= i < |xs| ==> xs[i] == xs[1..][i - 1];
    }
  }

  /** Cleaning is that comprehension with `str.strip` as the step. */
  lemma {:induction false} LimparMapeadas(linhas: seq<string>)
    ensures LimparLinhas(linhas) == Mapeadas(Strip, linhas)
  {
    if linhas != [] {
      LimparMapeadas(linhas[1..]);
    }
  }

  /** Cleaning works line by line: the cleaned lines of two runs of lines
      are those of each run, in order. With `LimparUma` this fixes the
      result and its order. */
  lemma LimparConcat(a: seq<string>, b: seq<string>)
    ensures LimparLinhas(a + b) == LimparLinhas(a) + LimparLinhas(b)
  {
    LimparMapeadas(a + b);
    LimparMapeadas(a);
    LimparMapeadas(b);
    MapeadasConcat(Strip, a, b);
  }

  /** No non-blank line is lost: the strip of each one is among the
      cleaned lines. */
  lemma LimparCompleta(linhas: seq<string>)
    ensures forall i :: 0 <= i < |linhas| && Strip(linhas[i]) != [] ==> Strip(linhas[i]) in LimparLinhas(linhas)
  {
    LimparMapeadas(linhas);
    MapeadasCompleta(Strip, linhas);
  }

  /** Cleaning lines that hold no line break gives sentences without one. */
  lemma {:induction false} LimparSemQuebra(linhas: seq<string>)
    requires forall i :: 0 <= i < |linhas| ==> !Contains(linhas[i], "\n")
    ensures forall i :: 0 <= i < |LimparLinhas(linhas)| ==> !Contains(LimparLinhas(linhas)[i], "\n")
  {
    if linhas != [] {
      var cabeca := Strip(linhas[0]);
      var resto := LimparLinhas(linhas[1..]);
      assert forall i :: 0 <= i < |linhas[1..]| ==> !Contains(linhas[1..][i], "\n") by {
        forall i | 0 <= i < |linhas[1..]| ensures !Contains(linhas[1..][i], "\n") {
          assert linhas[1..][i] == linhas[i + 1];
        }
      }
      LimparSemQuebra(linhas[1..]);
      assert !Contains(cabeca, "\n") by {
        if Contains(cabeca, "\n") {
          ContainsFromStrip(linhas[0], "\n");
        }
      }
      var r := LimparLinhas(linhas);
      assert r == (if cabeca != [] then [cabeca] else []) + resto;
      forall i | 0 <= i < |r| ensures !Contains(r[i], "\n") {
        if cabeca != [] && i > 0 {
          assert r[i] == resto[i - 1];
        } else if cabeca == [] {
          assert r[i] == resto[i];
        }
      }
    }
  }

  /** `content.strip().split('\n')`, cleaned: every sentence is non-blank,
      already stripped and holds no line break. */
  function LinhasDaResposta(conteudo: string): (r: seq<string>)
    ensures forall i :: 0 <= i < |r| ==> Limpa(r[i]) && !Contains(r[i], "\n")
  {
    var linhas := Split(Strip(conteudo), "\n");
    SplitPieces(Strip(conteudo), "\n");
    LimparSemQuebra(linhas);
    LimparLinhas(linhas)
  }

  /** A one-line reply with some text gives exactly its stripped text. */
  lemma RespostaDeUmaLinha(conteudo: string)
    requires !Contains(conteudo, "\n") && !AllSpace(conteudo)
    ensures LinhasDaResposta(conteudo) == [Strip(conteudo)]
  {
    var s := Strip(conteudo);
    if Contains(s, "\n") {
      ContainsFromStrip(conteudo, "\n");
    }
    SplitWithoutSep(s, "\n");
    StripEmpty(conteudo);
    StripIdempotent(conteudo);
    assert LimparLinhas([s]) == [s] + LimparLinhas([s][1..]);
  }

  /** A reply whose stripped text is the lines `xs` joined by line breaks
      gives the cleaned `xs`: the reply is cut at every line break, and the
      lines keep their order. */
  lemma RespostaPorLinhas(conteudo: string, xs: seq<string>)
    requires xs != [] && forall i :: 0 <= i < |xs| ==> !Contains(xs[i], "\n")
    requires Strip(conteudo) == Join(xs, "\n")
    ensures LinhasDaResposta(conteudo) == LimparLinhas(xs)
  {
    SplitJoinChar(xs, "\n");
  }

  /** `frases[:3]`. */
  function Primeiras3(frases: seq<string>): (r: seq<string>)
    ensures |r| <= 3 && |r| <= |frases| && r == frases[..|r|]
    ensures |frases| >= 3 ==> |r| == 3
    ensures |frases| < 3 ==> r == frases
  {
    if |frases| <= 3 then frases else frases[..3]
  }

  /** The padding loop of `gerar_frases`: while fewer than 3 sentences, append
      the fallback numbered by the current length. */
  method CompletarFrases(frases: seq<string>, palavra: string) returns (r: seq<string>)
    ensures |r| == if |frases| < 3 then 3 else |frases|
    ensures r[..|frases|] == frases
    ensures forall i :: |frases| <= i < |r| ==> r[i] == GerarFrasePadrao(palavra, i)
  {
    r := frases;
    while |r| < 3
      invariant |frases| <= |r| && (|frases| < 3 ==> |r| <= 3) && (|frases| >= 3 ==> r == frases)
      invariant r[..|frases|] == frases
      invariant forall i :: |frases| <= i < |r| ==> r[i] == GerarFrasePadrao(palavra, i)
    {
      r := r + [GerarFrasePadrao(palavra, |r|)];
    }
  }

  /** `[gerar_frase_padrao(palavra, i) for i in range(3)]`: the three
      fallbacks in order. */
  function ListaPadrao(palavra: string): (r: seq<string>)
    ensures r == Padroes(palavra)
  {
    [GerarFrasePadrao(palavra, 0), GerarFrasePadrao(palavra, 1), GerarFrasePadrao(palavra, 2)]
  }

  /** `frases` are the reply's first 3 clean lines, padded with the
      fallbacks numbered by position up to 3. */
  predicate CompletaResposta(frases: seq<string>, palavra: string, texto: string)
  {
    var geradas := Primeiras3(LinhasDaResposta(texto));
    |frases| == 3 && frases[..|geradas|] == geradas
    && forall i :: |geradas| <= i < 3 ==> frases[i] == GerarFrasePadrao(palavra, i)
  }

  /** The reply's path of `gerar_frases`: strip and split the reply, keep
      the first 3 clean lines, and pad with fallbacks up to 3. */
  method FrasesDaResposta(palavra: string, texto: string) returns (frases: seq<string>)
    ensures |frases| == 3
    ensures CompletaResposta(frases, palavra, texto)
  {
    frases := Primeiras3(LinhasDaResposta(texto));
    frases := CompletarFrases(frases, palavra);
  }

  // ---------------------------------------------------------------------
  // The generator object

  /** The model's reply: its text content, or `Falha` when the call raised
      (or the content was None). */
  datatype RespostaModelo = Conteudo(texto: string) | Falha

  /** `not response.choices[0].message.content` or an exception. */
  predicate SemConteudo(resposta: RespostaModelo)
  {
    resposta.Falha? || resposta.texto == []
  }

  /** `if palavra_id:` is false for None and for 0. */
  predicate IdInformado(palavraId: Option<int>)
  {
    palavraId.Some? && palavraId.value != 0
  }

  /** The stored-sentence branch applies: an id, a successful read, and at
      least 3 kept sentences. */
  predicate ServidasDoBanco(linhas: seq<LinhaFrase>, palavraId: Option<int>, leituraOk: bool)
  {
    IdInformado(palavraId) && leituraOk && |FrasesExistentes(linhas, palavraId.value)| >= 3
  }

  class GeradorFrases {
    /** Whether `self.client` is set (the connection test in `__init__` passed). */
    const temCliente: bool

    constructor (temCliente: bool)
      ensures this.temCliente == temCliente
    {
      this.temCliente := temCliente;
    }

    /** `gerar_frases`. Always 3 sentences: the fallbacks without a client or
        when the model fails; 3 stored sentences when there are that many;
        otherwise the reply's first 3 clean lines padded with fallbacks, all 3
        appended to the table when there is an id and the write succeeds. */
    method GerarFrases(palavra: string, palavraId: Option<int>, leituraOk: bool,
                       resposta: RespostaModelo, escritaOk: bool, tabela: TabelaFrases)
      returns (frases: seq<string>)
      modifies tabela
      ensures |frases| == 3
      ensures !temCliente ==> frases == Padroes(palavra) && tabela.linhas == old(tabela.linhas)
      ensures temCliente && ServidasDoBanco(old(tabela.linhas), palavraId, leituraOk) ==>
                frases == FrasesExistentes(old(tabela.linhas), palavraId.value)[..3]
                && tabela.linhas == old(tabela.linhas)
      ensures temCliente && !ServidasDoBanco(old(tabela.linhas), palavraId, leituraOk) && SemConteudo(resposta) ==>
                frases == Padroes(palavra) && tabela.linhas == old(tabela.linhas)
      ensures temCliente && !ServidasDoBanco(old(tabela.linhas), palavraId, leituraOk) && !SemConteudo(resposta) ==>
                CompletaResposta(frases, palavra, resposta.texto)
                && tabela.linhas == old(tabela.linhas)
                     + (if IdInformado(palavraId) && escritaOk then Linhas(palavraId.value, frases) else [])
    {
      if !temCliente {
        frases := ListaPadrao(palavra);
        return;
      }
      if IdInformado(palavraId) && leituraOk {
        var existentes := FrasesExistentes(tabela.linhas, palavraId.value);
        if |existentes| >= 3 {
          frases := existentes[..3];
          return;
        }
      }
      frases := GerarNovas(palavra, palavraId, resposta, escritaOk, tabela);
    }

    /** The part of `gerar_frases` after the stored-sentence check: the
        fallbacks when the model gives nothing, otherwise the reply's
        sentences, saved when there is an id and the write succeeds. */
    method GerarNovas(palavra: string, palavraId: Option<int>, resposta: RespostaModelo,
                      escritaOk: bool, tabela: TabelaFrases)
      returns (frases: seq<string>)
      modifies tabela
      ensures |frases| == 3
      ensures SemConteudo(resposta) ==> frases == Padroes(palavra) && tabela.linhas == old(tabela.linhas)
      ensures !SemConteudo(resposta) ==>
                CompletaResposta(frases, palavra, resposta.texto)
                && tabela.linhas == old(tabela.linhas)
                     + (if IdInformado(palavraId) && escritaOk then Linhas(palavraId.value, frases) else [])
    {
      if SemConteudo(resposta) {
        frases := ListaPadrao(palavra);
        return;
      }
      frases := FrasesDaResposta(palavra, resposta.texto);
      if IdInformado(palavraId) && escritaOk {
        tabela.InserirFrases(palavraId.value, frases);
      }
    }

    /** `gerar_frase_unica`: fallback 0 without a client or when the model
        fails, otherwise the stripped reply; either way a stripped string. */
    function GerarFraseUnica(palavra: string, resposta: RespostaModelo): (r: string)
      ensures Strip(r) == r
      ensures !temCliente || SemConteudo(resposta) ==> r == GerarFrasePadrao(palavra, 0) && Contains(r, Citada(palavra))
      ensures temCliente && !SemConteudo(resposta) ==> r == Strip(resposta.texto)
    {
      if !temCliente || SemConteudo(resposta) then
        var t := GerarFrasePadrao(palavra, 0);
        assert t[0] == 'E' && t[|t| - 1] == '.';
        StripNoMargins(t);
        t
      else
        StripIdempotent(resposta.texto);
        Strip(resposta.texto)
    }
  }
}
