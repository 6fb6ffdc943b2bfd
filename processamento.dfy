/**
 * The answer evaluator of the quiz back end (class `AvaliadorRespostas`):
 * a text normaliser, a keyword extractor, a keyword-containment score and
 * the fusion of that score with a cosine similarity under a 0.5 threshold.
 *
 * The TF-IDF vectoriser and its cosine similarity are a foreign library;
 * here the fit is an oracle that succeeds or raises, and the cosine value is
 * an input in [0, 1] (or the `ValueError` the transform may raise).
 */
module Processamento {
  import opened Texto

  /** The threshold above which an answer is accepted. */
  const LIMIAR: real := 0.5

  /** Default number of leading definition tokens used as keywords. */
  const TOP_N: nat := 5

  type Unidade = r: real | 0.0 <= r <= 1.0

  // ---------------------------------------------------------------------
  // _preprocessar_texto

  /** A character that survives both substitutions of the normaliser. */
  predicate Mantido(c: char)
  {
    (IsWordChar(c) || IsSpace(c)) && !IsDigit(c)
  }

  /** `re.sub(r'[^\w\s]', '', s)`: deletes every character that is neither a
      word character nor whitespace. */
  function RemovePontuacao(s: string): (r: string)
    ensures |r| <= |s|
    ensures forall i :: 0 <= i < |r| ==> (IsWordChar(r[i]) || IsSpace(r[i])) && r[i] in s
  {
    if s == [] then []
    else (if IsWordChar(s[0]) || IsSpace(s[0]) then [s[0]] else []) + RemovePontuacao(s[1..])
  }

  /** `re.sub(r'\d+', '', s)`: deleting every maximal run of digits deletes
      exactly the digit characters. */
  function RemoveDigitos(s: string): (r: string)
    ensures |r| <= |s|
    ensures forall i :: 0 <= i < |r| ==> !IsDigit(r[i]) && r[i] in s
  {
    if s == [] then []
    else (if IsDigit(s[0]) then [] else [s[0]]) + RemoveDigitos(s[1..])
  }

  /** `_preprocessar_texto`: lower-case, drop punctuation, drop digits. The
      result is lower-case and holds only non-digit word characters and
      whitespace. */
  function PreprocessarTexto(texto: string): (r: string)
    ensures |r| <= |texto|
    ensures forall i :: 0 <= i < |r| ==> Mantido(r[i]) && !IsUpper(r[i])
  {
    var l := LowerStr(texto);
    var p := RemovePontuacao(l);
    var r := RemoveDigitos(p);
    forall i | 0 <= i < |r| ensures Mantido(r[i]) && !IsUpper(r[i]) {
      var j :| 0 <= j < |p| && p[j] == r[i];
      var k :| 0 <= k < |l| && l[k] == p[j];
    }
    r
  }

  /** One step of the normaliser: the first character, lowered, is kept or
      dropped, and the rest is normalised on its own. */
  lemma PreprocessarPasso(texto: string)
    requires texto != []
    ensures PreprocessarTexto(texto)
         == (if Mantido(Lower(texto[0])) then [Lower(texto[0])] else []) + PreprocessarTexto(texto[1..])
  {
    var l := LowerStr(texto);
    assert l[1..] == LowerStr(texto[1..]);
    var c := l[0];
    assert c == Lower(texto[0]);
    var p := RemovePontuacao(l[1..]);
    if IsWordChar(c) || IsSpace(c) {
      assert RemovePontuacao(l) == [c] + p;
      assert ([c] + p)[0] == c && ([c] + p)[1..] == p;
      assert RemoveDigitos([c] + p) == (if IsDigit(c) then [] else [c]) + RemoveDigitos(p);
    } else {
      assert RemovePontuacao(l) == p;
    }
  }

  /** The normaliser only deletes characters of `texto.lower()`. */
  lemma {:induction false} PreprocessarSubsequencia(texto: string)
    ensures IsSubsequence(PreprocessarTexto(texto), LowerStr(texto))
    decreases |texto|
  {
    if texto != [] {
      PreprocessarPasso(texto);
      PreprocessarSubsequencia(texto[1..]);
      var l := LowerStr(texto);
      assert l[1..] == LowerStr(texto[1..]);
      var r := PreprocessarTexto(texto);
      var rest := PreprocessarTexto(texto[1..]);
      if Mantido(l[0]) {
        assert r[0] == l[0] && r[1..] == rest;
      } else {
        assert r == rest;
        SubsequenciaVazia(r, l);
      }
    }
  }

  /** A subsequence of the tail of `b` is a subsequence of `b`. */
  lemma SubsequenciaVazia(a: string, b: string)
    requires b != [] && IsSubsequence(a, b[1..])
    ensures IsSubsequence(a, b)
  {
  }

  /** A string that is already normal is left unchanged. */
  lemma {:induction false} PreprocessarPontoFixo(s: string)
    requires forall i :: 0 <= i < |s| ==> Mantido(s[i]) && !IsUpper(s[i])
    ensures PreprocessarTexto(s) == s
    decreases |s|
  {
    if s != [] {
      PreprocessarPasso(s);
      PreprocessarPontoFixo(s[1..]);
      assert s == [s[0]] + s[1..];
    }
  }

  /** Normalising twice is normalising once. */
  lemma PreprocessarIdempotente(texto: string)
    ensures PreprocessarTexto(PreprocessarTexto(texto)) == PreprocessarTexto(texto)
  {
    PreprocessarPontoFixo(PreprocessarTexto(texto));
  }

  // ---------------------------------------------------------------------
  // extrair_palavras_chave

  function Min(a: nat, b: nat): nat
  {
    if a <= b then a else b
  }

  /** `list(set(texto.split()[:top_n]))`, as the set it enumerates (only its
      size and membership are used). */
  function ExtrairPalavrasChave(texto: string, topN: nat): (r: set<string>)
    ensures |r| <= topN
    ensures forall p :: p in r ==> p != [] && NoSpace(p)
    ensures forall i :: 0 <= i < Min(topN, |SplitWs(texto)|) ==> SplitWs(texto)[i] in r
    ensures forall p :: p in r ==> exists i :: 0 <= i < Min(topN, |SplitWs(texto)|) && SplitWs(texto)[i] == p
  {
    var tokens := SplitWs(texto);
    var primeiros := tokens[..Min(topN, |tokens|)];
    ElemsCard(primeiros);
    Elems(primeiros)
  }

  // ---------------------------------------------------------------------
  // the keyword path and the fusion of avaliar_resposta

  /** The keywords that occur in the (normalised) answer. */
  function Acertos(chaves: set<string>, resposta: string): (r: set<string>)
    ensures r <= chaves
    ensures forall p :: p in chaves ==> (p in r <==> Contains(resposta, p))
  {
    set p | p in chaves && Contains(resposta, p)
  }

  /** `acertos / len(palavras_chave)`, or 0.0 when there are no keywords. */
  function PontuacaoPalavrasChave(chaves: set<string>, resposta: string): (r: real)
    ensures 0.0 <= r <= 1.0
    ensures chaves == {} ==> r == 0.0
    ensures r == 0.0 <==> forall p :: p in chaves ==> !Contains(resposta, p)
    ensures chaves != {} ==> (r == 1.0 <==> forall p :: p in chaves ==> Contains(resposta, p))
  {
    if chaves == {} then 0.0
    else
      var a := Acertos(chaves, resposta);
      SubconjuntoCard(a, chaves);
      assert |a| == 0 <==> a == {};
      Fracao(|a|, |chaves|);
      (|a| as real) / (|chaves| as real)
  }

  /** The fraction a/n of a count a out of n lies in [0, 1], and is 0 or 1
      exactly at the ends. */
  lemma Fracao(a: nat, n: nat)
    requires 0 < n && a <= n
    ensures 0.0 <= (a as real) / (n as real) <= 1.0
    ensures (a as real) / (n as real) == 0.0 <==> a == 0
    ensures (a as real) / (n as real) == 1.0 <==> a == n
  {
    var q := (a as real) / (n as real);
    assert q * (n as real) == a as real;
  }

  /** A subset is no larger, and equally large only when equal. */
  lemma SubconjuntoCard<T>(a: set<T>, b: set<T>)
    requires a <= b
    ensures |a| <= |b|
    ensures |a| == |b| <==> a == b
  {
    assert b == a + (b - a);
    assert a * (b - a) == {};
    assert |b| == |a| + |b - a|;
    if |a| == |b| {
      assert b - a == {};
    }
  }

  /** The cosine path: skipped (0.0) when the model is untrained, and 0.0 when
      the transform raised `ValueError` (`cosseno == None`). */
  function SimilaridadeCosseno(treinado: bool, cosseno: Option<Unidade>): (r: real)
    ensures 0.0 <= r <= 1.0
    ensures !treinado ==> r == 0.0
  {
    if treinado && cosseno.Some? then cosseno.value else 0.0
  }

  function Max(a: real, b: real): real
  {
    if a >= b then a else b
  }

  /** `avaliar_resposta` for a model whose flag is `treinado`: the score is the
      larger of the cosine and keyword scores, and the answer is accepted iff
      the score exceeds 0.5. Keywords come from the raw definition and are
      matched against the normalised answer. */
  function Avaliar(treinado: bool, resposta: string, definicao: string, cosseno: Option<Unidade>): (r: (real, bool))
    ensures 0.0 <= r.0 <= 1.0
    ensures r.0 >= SimilaridadeCosseno(treinado, cosseno)
    ensures r.0 >= PontuacaoPalavrasChave(ExtrairPalavrasChave(definicao, TOP_N), PreprocessarTexto(resposta))
    ensures r.0 == SimilaridadeCosseno(treinado, cosseno)
         || r.0 == PontuacaoPalavrasChave(ExtrairPalavrasChave(definicao, TOP_N), PreprocessarTexto(resposta))
    ensures r.1 <==> r.0 > LIMIAR
  {
    var similaridade := SimilaridadeCosseno(treinado, cosseno);
    var chaves := ExtrairPalavrasChave(definicao, TOP_N);
    var final := Max(similaridade, PontuacaoPalavrasChave(chaves, PreprocessarTexto(resposta)));
    (final, final > LIMIAR)
  }

  /** With an untrained model the score is the keyword score alone. */
  lemma NaoTreinadoUsaPalavrasChave(resposta: string, definicao: string, cosseno: Option<Unidade>)
    ensures Avaliar(false, resposta, definicao, cosseno).0
         == PontuacaoPalavrasChave(ExtrairPalavrasChave(definicao, TOP_N), PreprocessarTexto(resposta))
  {
  }

  /** With an untrained model, an answer that normalises to nothing (the empty
      answer among them) scores (0.0, False): no keyword is empty. */
  lemma RespostaVaziaRejeitada(resposta: string, definicao: string, cosseno: Option<Unidade>)
    requires PreprocessarTexto(resposta) == []
    ensures Avaliar(false, resposta, definicao, cosseno) == (0.0, false)
  {
    var chaves := ExtrairPalavrasChave(definicao, TOP_N);
    forall p | p in chaves ensures !Contains([], p) {
      assert p != [];
    }
  }

  /** A definition with no whitespace-separated token gives no keyword, so
      its keyword score is 0.0 whatever the answer. */
  lemma DefinicaoSemPalavras(resposta: string, definicao: string)
    requires AllSpace(definicao)
    ensures PontuacaoPalavrasChave(ExtrairPalavrasChave(definicao, TOP_N), PreprocessarTexto(resposta)) == 0.0
  {
    SplitWsEmpty(definicao);
  }

  // ---------------------------------------------------------------------
  // The keywords are taken from the raw definition but matched against the
  // normalised answer, so a keyword with a capital, a digit or punctuation
  // can never match: an answer identical to the definition can be rejected.

  /** Untrained, the answer "A" to the definition "A" scores 0.0 and is
      rejected: the keyword "A" does not occur in the normalised answer "a". */
  lemma RespostaIdenticaRejeitada()
    ensures Avaliar(false, "A", "A", None) == (0.0, false)
  {
    assert Lower('A') == 'a';
    assert LowerStr("A") == "a";
    assert PreprocessarTexto("A") == "a";
    assert TokenLen("A") == 1;
    assert "A"[..1] == "A" && "A"[1..] == [];
    assert SplitWs("A") == ["A"];
    var chaves := ExtrairPalavrasChave("A", TOP_N);
    assert chaves == {"A"};
    assert !Contains("a", "A") by {
      forall k | 0 <= k <= 1 ensures !OccursAt("a", "A", k) {
        if k == 0 { assert "a"[0..1][0] == 'a'; }
      }
    }
  }

  /** The evaluation as intended: keywords are drawn from the normalised
      definition, the form the answer is compared in. */
  function AvaliarCorrigido(treinado: bool, resposta: string, definicao: string, cosseno: Option<Unidade>): (r: (real, bool))
    ensures 0.0 <= r.0 <= 1.0
    ensures r.0 >= SimilaridadeCosseno(treinado, cosseno)
    ensures r.0 >= PontuacaoPalavrasChave(ExtrairPalavrasChave(PreprocessarTexto(definicao), TOP_N), PreprocessarTexto(resposta))
    ensures r.0 == SimilaridadeCosseno(treinado, cosseno)
         || r.0 == PontuacaoPalavrasChave(ExtrairPalavrasChave(PreprocessarTexto(definicao), TOP_N), PreprocessarTexto(resposta))
    ensures r.1 <==> r.0 > LIMIAR
  {
    var similaridade := SimilaridadeCosseno(treinado, cosseno);
    var chaves := ExtrairPalavrasChave(PreprocessarTexto(definicao), TOP_N);
    var final := Max(similaridade, PontuacaoPalavrasChave(chaves, PreprocessarTexto(resposta)));
    (final, final > LIMIAR)
  }

  /** Corrected, an answer identical to a definition that has at least one
      word scores 1.0 and is accepted, trained or not. */
  lemma RespostaIdenticaAceita(treinado: bool, definicao: string, cosseno: Option<Unidade>)
    requires !AllSpace(PreprocessarTexto(definicao))
    ensures AvaliarCorrigido(treinado, definicao, definicao, cosseno) == (1.0, true)
  {
    PalavrasChavePresentes(PreprocessarTexto(definicao));
  }

  /** Every keyword of a text with at least one word occurs in it, so the
      text's own keyword score is 1.0. */
  lemma PalavrasChavePresentes(d: string)
    requires !AllSpace(d)
    ensures PontuacaoPalavrasChave(ExtrairPalavrasChave(d, TOP_N), d) == 1.0
  {
    var chaves := ExtrairPalavrasChave(d, TOP_N);
    SplitWsEmpty(d);
    assert SplitWs(d)[0] in chaves;
    forall p | p in chaves ensures Contains(d, p) {
      SplitWsTokensOccur(d, p);
    }
  }

  /** Corrected as well, an untrained model rejects an answer that
      normalises to nothing with (0.0, False). */
  lemma RespostaVaziaRejeitadaCorrigida(resposta: string, definicao: string, cosseno: Option<Unidade>)
    requires PreprocessarTexto(resposta) == []
    ensures AvaliarCorrigido(false, resposta, definicao, cosseno) == (0.0, false)
  {
    var chaves := ExtrairPalavrasChave(PreprocessarTexto(definicao), TOP_N);
    forall p | p in chaves ensures !Contains([], p) {
      assert p != [];
    }
  }

  // ---------------------------------------------------------------------
  // The evaluator object

  /** Outcome of `self.vectorizer.fit(textos)`. */
  datatype AjusteModelo = Ajustado | ErroValor | OutraExcecao

  class AvaliadorRespostas {
    /** `modelo_treinado`; the fitted vectoriser itself is not modelled. */
    var modeloTreinado: bool

    /** A new evaluator starts untrained. */
    constructor ()
      ensures !modeloTreinado
    {
      modeloTreinado := false;
    }

    /** `treinar_modelo`: the flag records whether the fit succeeded; a
        `ValueError` is caught and clears it, any other exception escapes
        (`propagada`) and leaves it as it was. */
    method TreinarModelo(ajuste: AjusteModelo) returns (propagada: bool)
      modifies this
      ensures propagada <==> ajuste == OutraExcecao
      ensures ajuste == Ajustado ==> modeloTreinado
      ensures ajuste == ErroValor ==> !modeloTreinado
      ensures ajuste == OutraExcecao ==> modeloTreinado == old(modeloTreinado)
    {
      propagada := false;
      match ajuste
      case Ajustado => modeloTreinado := true;
      case ErroValor => modeloTreinado := false;
      case OutraExcecao => propagada := true;
    }

    /** `avaliar_resposta`: consults the flag and changes nothing. The score
        is the larger of the two paths and the answer is accepted exactly
        above 0.5; untrained, an answer that normalises to nothing is
        rejected with 0.0. */
    method AvaliarResposta(resposta: string, definicaoCorreta: string, cosseno: Option<Unidade>)
      returns (pontuacao: real, aceita: bool)
      ensures (pontuacao, aceita) == Avaliar(modeloTreinado, resposta, definicaoCorreta, cosseno)
      ensures 0.0 <= pontuacao <= 1.0 && (aceita <==> pontuacao > LIMIAR)
      ensures pontuacao >= SimilaridadeCosseno(modeloTreinado, cosseno)
      ensures pontuacao >= PontuacaoPalavrasChave(ExtrairPalavrasChave(definicaoCorreta, TOP_N), PreprocessarTexto(resposta))
      ensures !modeloTreinado ==>
        pontuacao == PontuacaoPalavrasChave(ExtrairPalavrasChave(definicaoCorreta, TOP_N), PreprocessarTexto(resposta))
      ensures !modeloTreinado && PreprocessarTexto(resposta) == [] ==> (pontuacao, aceita) == (0.0, false)
    {
      if !modeloTreinado && PreprocessarTexto(resposta) == [] {
        RespostaVaziaRejeitada(resposta, definicaoCorreta, cosseno);
      }
      var r := Avaliar(modeloTreinado, resposta, definicaoCorreta, cosseno);
      pontuacao, aceita := r.0, r.1;
    }

    /** The evaluation with the keywords drawn from the normalised definition
        (see `RespostaIdenticaRejeitada`): an answer identical to a
        definition that has a word is accepted with 1.0. */
    method AvaliarRespostaCorrigida(resposta: string, definicaoCorreta: string, cosseno: Option<Unidade>)
      returns (pontuacao: real, aceita: bool)
      ensures (pontuacao, aceita) == AvaliarCorrigido(modeloTreinado, resposta, definicaoCorreta, cosseno)
      ensures 0.0 <= pontuacao <= 1.0 && (aceita <==> pontuacao > LIMIAR)
      ensures !modeloTreinado && PreprocessarTexto(resposta) == [] ==> (pontuacao, aceita) == (0.0, false)
      ensures !AllSpace(PreprocessarTexto(definicaoCorreta)) && resposta == definicaoCorreta ==> (pontuacao, aceita) == (1.0, true)
    {
      if !modeloTreinado && PreprocessarTexto(resposta) == [] {
        RespostaVaziaRejeitadaCorrigida(resposta, definicaoCorreta, cosseno);
      }
      if !AllSpace(PreprocessarTexto(definicaoCorreta)) && resposta == definicaoCorreta {
        RespostaIdenticaAceita(modeloTreinado, definicaoCorreta, cosseno);
      }
      var r := AvaliarCorrigido(modeloTreinado, resposta, definicaoCorreta, cosseno);
      pontuacao, aceita := r.0, r.1;
    }
  }
}
