/** The stand-in for the external credit bureau: a random score and the text
    describing the assessment for a score. */
module CreditMock {
  import opened Guids
  import opened Randomness

  /** The assessment bands, lowest first. */
  datatype Band = Reprovado | Restrito | Padrao | Vantagens | Premium

  /** Where the bands end: each boundary belongs to the lower band. */
  function BandOf(score: int): (b: Band)
    ensures b == Reprovado <==> score <= 100
    ensures b == Restrito <==> 101 <= score <= 500
    ensures b == Padrao <==> 501 <= score <= 750
    ensures b == Vantagens <==> 751 <= score <= 900
    ensures b == Premium <==> score > 900
  {
    if score <= 100 then Reprovado
    else if score <= 500 then Restrito
    else if score <= 750 then Padrao
    else if score <= 900 then Vantagens
    else Premium
  }

  function Rank(b: Band): nat {
    match b
    case Reprovado => 0
    case Restrito => 1
    case Padrao => 2
    case Vantagens => 3
    case Premium => 4
  }

  /** A higher score never falls in a lower band. */
  lemma BandMonotone(a: int, b: int)
    requires a <= b
    ensures Rank(BandOf(a)) <= Rank(BandOf(b))
  {
  }

  /** The text of each band, cut into the pieces a reader looks for. */
  function Pieces(b: Band): seq<string> {
    match b
    case Reprovado =>
      ["Reprovado", " - ", "Score muito baixo", ". ", "Sem liberação", " de cartão de crédito."]
    case Restrito =>
      ["Aprovado", " com ", "restrições", " - ", "1 cartão", " com limite ", "R$ 1.000",
       ",00. Recomenda-se melhorar o histórico de crédito."]
    case Padrao =>
      ["Aprovado", " - Até ", "2 cartões", " com limite ", "R$ 5.000", ",00 cada. Histórico de crédito satisfatório."]
    case Vantagens =>
      ["Aprovado", " ", "com vantagens", " - Até ", "2 cartões", " com limite ", "R$ 5.000",
       ",00 cada. Histórico de crédito bom."]
    case Premium =>
      ["Aprovado", " ", "premium", " - Até ", "2 cartões", " com limite ", "R$ 5.000",
       ",00 cada. Excelente histórico de crédito."]
  }

  function Concat(ps: seq<string>): string {
    if ps == [] then "" else ps[0] + Concat(ps[1..])
  }

  function Description(b: Band): string {
    Concat(Pieces(b))
  }

  /** sub occurs in s. */
  predicate Contains(s: string, sub: string) {
    exists i :: 0 <= i <= |s| && sub <= s[i..]
  }

  /** Each piece occurs in the text they make up. */
  lemma {:induction false} ContainsEach(ps: seq<string>, k: nat)
    requires k < |ps|
    ensures Contains(Concat(ps), ps[k])
    decreases k
  {
    var rest := Concat(ps[1..]);
    assert Concat(ps) == ps[0] + rest;
    if k == 0 {
      assert ps[0] <= Concat(ps)[0..];
    } else {
      ContainsEach(ps[1..], k - 1);
      var i :| 0 <= i <= |rest| && ps[k] <= rest[i..];
      assert Concat(ps)[|ps[0]| + i..] == rest[i..];
    }
  }

  /** ObterDescricaoAvaliacao: the text of the score's band. It opens with
      "Reprovado" up to 100 and with "Aprovado" above. */
  function ObterDescricaoAvaliacao(score: int): (d: string)
    ensures score <= 100 ==> "Reprovado" <= d
    ensures score > 100 ==> "Aprovado" <= d
  {
    var ps := Pieces(BandOf(score));
    assert Concat(ps) == ps[0] + Concat(ps[1..]);
    Concat(ps)
  }

  /** Up to 100, negative scores included, the text is a rejection. */
  lemma LowScoreRejected(score: int)
    requires score <= 100
    ensures var d := ObterDescricaoAvaliacao(score);
            Contains(d, "Reprovado") && Contains(d, "Score muito baixo") && Contains(d, "Sem liberação")
  {
    var ps := Pieces(Reprovado);
    ContainsEach(ps, 0);
    ContainsEach(ps, 2);
    ContainsEach(ps, 4);
  }

  /** From 101 to 500, approval with restrictions: one card, R$ 1.000. */
  lemma MiddleScoreRestricted(score: int)
    requires 101 <= score <= 500
    ensures var d := ObterDescricaoAvaliacao(score);
            Contains(d, "Aprovado") && Contains(d, "restrições") && Contains(d, "1 cartão") && Contains(d, "R$ 1.000")
  {
    var ps := Pieces(Restrito);
    ContainsEach(ps, 0);
    ContainsEach(ps, 2);
    ContainsEach(ps, 4);
    ContainsEach(ps, 6);
  }

  /** Above 500, approval of up to two cards of R$ 5.000 each; 751 to 900 with
      advantages and above 900 premium. */
  lemma HighScoreTwoCards(score: int)
    requires score > 500
    ensures var d := ObterDescricaoAvaliacao(score);
            && Contains(d, "Aprovado") && Contains(d, "2 cartões") && Contains(d, "R$ 5.000")
            && (751 <= score <= 900 ==> Contains(d, "com vantagens"))
            && (score > 900 ==> Contains(d, "premium"))
  {
    var ps := Pieces(BandOf(score));
    ContainsEach(ps, 0);
    if BandOf(score) == Padrao {
      ContainsEach(ps, 2);
      ContainsEach(ps, 4);
    } else {
      ContainsEach(ps, 2);
      ContainsEach(ps, 4);
      ContainsEach(ps, 6);
    }
  }

  class CreditMockService {
    const random: RandomSource

    constructor (random: RandomSource)
      ensures this.random == random
    {
      this.random := random;
    }

    /** GerarScoreAleatorio: Next(0, 1001), a score in 0..1000 inclusive; the
        customer identifier plays no part. */
    method GerarScoreAleatorio(clientId: Guid) returns (score: int)
      modifies random
      ensures 0 <= score <= 1000
      ensures score == NextValue(0, 1001, random.draws(old(random.used))) && random.used == old(random.used) + 1
    {
      score := random.Next(0, 1001);
    }
  }

  /** Every score of 0..1000 is one the generator can return. */
  lemma EveryScoreReachable(score: int)
    requires 0 <= score <= 1000
    ensures exists raw: nat :: NextValue(0, 1001, raw) == score
  {
    NextValueCovers(0, 1001, score);
  }
}
