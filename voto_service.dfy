/**
 * VotoService: the title-keyed vote registrar (an ordered chain of guards ending in
 * a single insert) and the tally with truncating integer percentages.
 */
module VotoServico {
  import opened Wrappers
  import opened Erros
  import opened Texto
  import opened Votos
  import opened Pautas
  import opened Repositorios

  /** The token the eligibility oracle returns for a voter who may vote. */
  const ABLE_TO_VOTE: string := "ABLE_TO_VOTE"

  datatype StatusPauta = APROVADA | REPROVADA

  /** The tally: the no-votes message, or the two truncated percentages and the outcome. */
  datatype Apuracao = NenhumVoto | Percentuais(percSim: int, percNao: int, status: StatusPauta)

  datatype ResultadoVotacao = ResultadoVotacao(tituloPauta: string, apuracao: Apuracao)

  /** The arithmetic of calcularResultadoPorTitulo over the two counts (long division, then the cast). */
  function Apurar(votosSim: nat, votosNao: nat): (a: Apuracao)
    ensures a.NenhumVoto? <==> votosSim + votosNao == 0
    ensures a.Percentuais? ==> (a.status == APROVADA <==> votosSim > votosNao)
  {
    var totalVotos := votosSim + votosNao;
    if totalVotos == 0 then NenhumVoto
    else
      Percentuais((votosSim * 100) / totalVotos, (votosNao * 100) / totalVotos,
                  if votosSim > votosNao then APROVADA else REPROVADA)
  }

  lemma ProdutoMonotono(x: int, y: int, t: int)
    requires x <= y && t >= 0
    ensures x * t <= y * t
  {
    assert y * t - x * t == (y - x) * t;
  }

  /** Cancelling a positive factor from a strict inequality. */
  lemma ProdutoEstrito(x: int, y: int, t: int)
    requires t > 0 && x * t < y * t
    ensures x < y
  {
    if y <= x {
      ProdutoMonotono(y, x, t);
    }
  }

  /** Truncating division by a positive divisor is monotone in the dividend. */
  lemma DivisaoMonotona(a: nat, b: nat, t: nat)
    requires t > 0 && a <= b
    ensures a / t <= b / t
  {
    var qa, qb := a / t, b / t;
    assert qa * t <= a;
    assert b < qb * t + t == (qb + 1) * t;
    ProdutoEstrito(qa, qb + 1, t);
  }

  /** An integer k with 0 <= k * t < 2 * t is 0 or 1. */
  lemma FatorZeroOuUm(k: int, t: int)
    requires t > 0 && 0 <= k * t < 2 * t
    ensures 0 <= k <= 1
  {
    ProdutoEstrito(-1, k, t);
    ProdutoEstrito(k, 2, t);
  }

  /**
   * With at least one vote, each percentage lies in [0, 100] and, because each is
   * truncated independently, their sum is 99 or 100.
   */
  lemma PercentuaisLimitados(votosSim: nat, votosNao: nat)
    requires votosSim + votosNao > 0
    ensures var a := Apurar(votosSim, votosNao);
      && a.Percentuais?
      && 0 <= a.percSim <= 100 && 0 <= a.percNao <= 100
      && 99 <= a.percSim + a.percNao <= 100
  {
    var t := votosSim + votosNao;
    var q1, r1 := (votosSim * 100) / t, (votosSim * 100) % t;
    var q2, r2 := (votosNao * 100) / t, (votosNao * 100) % t;
    assert votosSim * 100 == q1 * t + r1;
    assert votosNao * 100 == q2 * t + r2;
    var k := 100 - q1 - q2;
    assert k * t == 100 * t - q1 * t - q2 * t;
    assert k * t == r1 + r2;
    FatorZeroOuUm(k, t);
  }

  /** The outcome agrees with the printed percentages: APROVADA iff percSim > percNao. */
  lemma StatusConcordaComPercentuais(votosSim: nat, votosNao: nat)
    requires votosSim + votosNao > 0
    ensures var a := Apurar(votosSim, votosNao);
      a.Percentuais? && (a.status == APROVADA <==> a.percSim > a.percNao)
  {
    var t := votosSim + votosNao;
    var a := Apurar(votosSim, votosNao);
    PercentuaisLimitados(votosSim, votosNao);
    if votosSim > votosNao {
      // fewer than half the votes are NAO, so percNao < 50 < percSim
      var q2 := (votosNao * 100) / t;
      assert q2 * t <= votosNao * 100 < 50 * t;
      ProdutoEstrito(q2, 50, t);
    } else {
      DivisaoMonotona(votosSim * 100, votosNao * 100, t);
    }
  }

  /** A tie is REPROVADA, with equal percentages. */
  lemma EmpateReprova(n: nat)
    requires n > 0
    ensures Apurar(n, n) == Percentuais(50, 50, REPROVADA)
  {
    PercentuaisLimitados(n, n);
  }

  /** Four SIM and two NAO: 66% and 33%, APROVADA. */
  lemma ExemploQuatroADois()
    ensures Apurar(4, 2) == Percentuais(66, 33, APROVADA)
  {
  }

  /** validarSessaoAberta over the pauta's getters: missing stamps, then the inclusive window. */
  function ValidarSessaoAberta(abertura: Option<int>, fechamento: Option<int>, agora: int): (r: Outcome<Erro>)
    ensures r.Pass? <==> abertura.Some? && fechamento.Some? && abertura.value <= agora <= fechamento.value
    ensures r == Fail(SessaoNaoAberta) <==> abertura.None? || fechamento.None?
    ensures r.Fail? ==> r.error in {SessaoNaoAberta, SessaoFechada}
  {
    if abertura.None? || fechamento.None? then Fail(SessaoNaoAberta)
    else if agora < abertura.value || agora > fechamento.value then Fail(SessaoFechada)
    else Pass
  }

  /** The service's session check accepts exactly when the pauta itself can receive a vote. */
  lemma ValidacaoConcordaComPauta(p: Pauta, agora: int)
    requires p.Valid()
    ensures ValidarSessaoAberta(p.GetAbertura(), p.GetFechamento(), agora).Pass? <==> p.PodeReceberVoto(agora)
    ensures ValidarSessaoAberta(p.GetAbertura(), p.GetFechamento(), agora) == Fail(SessaoNaoAberta)
      <==> !p.TemSessaoAberta()
  {
  }

  /** validarCpf: the oracle passes only "ABLE_TO_VOTE", ignoring case; a missing status fails. */
  predicate Autorizado(status: Option<string>)
    ensures Autorizado(status) ==> status.Some? && |status.value| == |ABLE_TO_VOTE|
    ensures status == Some(ABLE_TO_VOTE) ==> Autorizado(status)
  {
    status.Some? && EqualsIgnoreCase(ABLE_TO_VOTE, status.value)
  }

  /** The oracle fails closed: no status, or the other token, is refused. */
  lemma OraculoFalhaFechado()
    ensures !Autorizado(None)
    ensures !Autorizado(Some("UNABLE_TO_VOTE"))
    ensures Autorizado(Some("able_to_vote"))
  {
    assert "UNABLE_TO_VOTE"[0] == 'U';
  }

  /** parseEscolha: valueOf after upper-casing; an unknown name becomes "Escolha inválida". */
  function ParseEscolha(escolhaStr: string): (r: Result<Escolha, Erro>)
    ensures r == Success(SIM) <==> EqualsIgnoreCase(escolhaStr, "SIM")
    ensures r == Success(NAO) <==> EqualsIgnoreCase(escolhaStr, "NAO")
    ensures r.Failure? ==> r.error == EscolhaInvalida
  {
    EqualsIgnoreCaseIffUpperEqual(escolhaStr, "SIM");
    EqualsIgnoreCaseIffUpperEqual(escolhaStr, "NAO");
    assert ToUpper("SIM") == "SIM" && ToUpper("NAO") == "NAO";
    match ValueOf(ToUpper(escolhaStr))
    case Success(e) => Success(e)
    case Failure(_) => Failure(EscolhaInvalida)
  }

  /** "sim", "Sim" and "SIM" all parse as SIM; "talvez" is refused. */
  lemma ParseEscolhaExemplos()
    ensures ParseEscolha("sim") == Success(SIM) && ParseEscolha("Sim") == Success(SIM)
    ensures ParseEscolha("nao") == Success(NAO)
    ensures ParseEscolha("talvez") == Failure(EscolhaInvalida)
  {
    assert EqualsIgnoreCase("sim", "SIM") && EqualsIgnoreCase("Sim", "SIM") && EqualsIgnoreCase("nao", "NAO");
    assert ToUpper("talvez") == "TALVEZ";
  }

  /**
   * The guards that follow the lookup, in the order the registrar runs them:
   * session, duplicate, oracle, choice. A failure stops the chain.
   */
  function Triagem(abertura: Option<int>, fechamento: Option<int>, agora: int, jaVotou: bool,
                   status: Option<string>, escolhaStr: string): (r: Result<Escolha, Erro>)
    ensures r.Success? <==>
      ValidarSessaoAberta(abertura, fechamento, agora).Pass? && !jaVotou && Autorizado(status)
      && ParseEscolha(escolhaStr).Success?
    ensures r.Success? ==> r == ParseEscolha(escolhaStr)
    // a closed or unopened session is reported whatever the store, the oracle or the choice say
    ensures ValidarSessaoAberta(abertura, fechamento, agora).Fail? ==>
      r == Failure(ValidarSessaoAberta(abertura, fechamento, agora).error)
    // a repeated vote is reported before the oracle is consulted
    ensures ValidarSessaoAberta(abertura, fechamento, agora).Pass? && jaVotou ==> r == Failure(VotoDuplicado)
    ensures ValidarSessaoAberta(abertura, fechamento, agora).Pass? && !jaVotou && !Autorizado(status) ==>
      r == Failure(AssociadoNaoAutorizado)
    ensures (ValidarSessaoAberta(abertura, fechamento, agora).Pass? && !jaVotou && Autorizado(status) &&
             ParseEscolha(escolhaStr).Failure?) ==>
      r == Failure(EscolhaInvalida)
  {
    var sessao := ValidarSessaoAberta(abertura, fechamento, agora);
    if sessao.Fail? then Failure(sessao.error)
    else if jaVotou then Failure(VotoDuplicado)
    else if !Autorizado(status) then Failure(AssociadoNaoAutorizado)
    else ParseEscolha(escolhaStr)
  }

  /** The oracle's answer does not matter when the vote is a repeat or the session is not open. */
  lemma OraculoIrrelevanteAntesDaConsulta(abertura: Option<int>, fechamento: Option<int>, agora: int,
                                          jaVotou: bool, s1: Option<string>, s2: Option<string>, escolhaStr: string)
    requires ValidarSessaoAberta(abertura, fechamento, agora).Fail? || jaVotou
    ensures Triagem(abertura, fechamento, agora, jaVotou, s1, escolhaStr)
         == Triagem(abertura, fechamento, agora, jaVotou, s2, escolhaStr)
  {
  }

  class VotoService {
    const pautaRepositorio: PautaRepositorio
    const votoRepositorio: VotoRepositorio

    ghost predicate Valid()
      reads this, pautaRepositorio, votoRepositorio, pautaRepositorio.pautas
    {
      && pautaRepositorio.Valid() && votoRepositorio.Valid()
      && forall i | 0 <= i < |pautaRepositorio.pautas| :: pautaRepositorio.pautas[i].Valid()
    }

    constructor (pautaRepositorio: PautaRepositorio, votoRepositorio: VotoRepositorio)
      ensures this.pautaRepositorio == pautaRepositorio && this.votoRepositorio == votoRepositorio
    {
      this.pautaRepositorio := pautaRepositorio;
      this.votoRepositorio := votoRepositorio;
    }

    /**
     * registrarVotoPorTitulo at instant `agora`, with `statusOraculo` the status the
     * eligibility client answers. Exactly one row is written on success, none on failure.
     */
    method RegistrarVotoPorTitulo(titulo: string, associadoId: string, escolhaStr: string,
                                  agora: int, statusOraculo: Option<string>)
      returns (r: Result<VotoRegistro, Erro>)
      requires Valid()
      modifies votoRepositorio
      ensures Valid()
      ensures pautaRepositorio.FindByTitulo(titulo).None? ==>
        r == Failure(NaoEncontrada) && votoRepositorio.votos == old(votoRepositorio.votos)
      ensures pautaRepositorio.FindByTitulo(titulo).Some? ==>
        var p := pautaRepositorio.FindByTitulo(titulo).value;
        var t := Triagem(p.GetAbertura(), p.GetFechamento(), agora,
                         old(votoRepositorio.ExistsByCpfIdAndPautaId(associadoId, p.id)),
                         statusOraculo, escolhaStr);
        && (t.Failure? ==> r == Failure(t.error) && votoRepositorio.votos == old(votoRepositorio.votos))
        && (t.Success? ==> r == Success(VotoRegistro(associadoId, t.value, p.id))
                           && votoRepositorio.votos == old(votoRepositorio.votos) + [r.value])
      ensures r.Success? ==> old(!votoRepositorio.ExistsByCpfIdAndPautaId(associadoId, r.value.pautaId))
      ensures r.Success? ==> votoRepositorio.ExistsByCpfIdAndPautaId(associadoId, r.value.pautaId)
    {
      var encontrada := pautaRepositorio.FindByTitulo(titulo);
      if encontrada.None? {
        return Failure(NaoEncontrada);
      }
      var pauta := encontrada.value;
      var sessao := ValidarSessaoAberta(pauta.GetAbertura(), pauta.GetFechamento(), agora);
      if sessao.Fail? {
        return Failure(sessao.error);
      }
      if votoRepositorio.ExistsByCpfIdAndPautaId(associadoId, pauta.id) {
        return Failure(VotoDuplicado);
      }
      if !Autorizado(statusOraculo) {
        return Failure(AssociadoNaoAutorizado);
      }
      var escolha := ParseEscolha(escolhaStr);
      if escolha.Failure? {
        return Failure(escolha.error);
      }
      var voto := VotoRegistro(associadoId, escolha.value, pauta.id);
      var salvo := votoRepositorio.Save(voto);
      assert salvo.Pass?;
      assert votoRepositorio.votos[|votoRepositorio.votos| - 1] == voto;
      r := Success(voto);
    }

    /** calcularResultadoPorTitulo: re-counts the pauta's votes by choice and tallies them. */
    function CalcularResultadoPorTitulo(titulo: string): (r: Result<ResultadoVotacao, Erro>)
      reads this, pautaRepositorio, votoRepositorio
      ensures r.Failure? <==> pautaRepositorio.FindByTitulo(titulo).None?
      ensures r.Failure? ==> r.error == NaoEncontrada
      ensures r.Success? ==>
        var id := pautaRepositorio.FindByTitulo(titulo).value.id;
        && r.value.tituloPauta == titulo
        && r.value.apuracao == Apurar(votoRepositorio.CountByPautaAndEscolha(id, SIM),
                                      votoRepositorio.CountByPautaAndEscolha(id, NAO))
        && (r.value.apuracao.NenhumVoto? <==> |Filtrar(votoRepositorio.votos, id)| == 0)
    {
      match pautaRepositorio.FindByTitulo(titulo)
      case None => Failure(NaoEncontrada)
      case Some(pauta) =>
        var votosSim := votoRepositorio.CountByPautaAndEscolha(pauta.id, SIM);
        var votosNao := votoRepositorio.CountByPautaAndEscolha(pauta.id, NAO);
        ContagemConcordaComFiltro(votoRepositorio.votos, pauta.id, SIM);
        ContagemConcordaComFiltro(votoRepositorio.votos, pauta.id, NAO);
        SimMaisNaoEhTotal(Filtrar(votoRepositorio.votos, pauta.id));
        Success(ResultadoVotacao(pauta.GetTituloPauta(), Apurar(votosSim, votosNao)))
    }
  }
}
