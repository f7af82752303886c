/**
 * PautaService: the older id-keyed service over the setter-only Pauta bean. Its rules differ
 * from the Pauta aggregate's: re-opening overwrites the window, a given duration is used as is,
 * the clock is read twice, and votar checks only the upper bound of the window.
 * Instants are nanoseconds, stored at full precision (no formatter on this path).
 */
module PautaServico {
  import opened Wrappers
  import opened Erros
  import opened Texto
  import opened Sessoes
  import opened Votos
  import opened Repositorios

  /** The legacy Pauta bean: id, titulo and the two window stamps, each settable. */
  datatype PautaLegada = PautaLegada(id: Option<nat>, titulo: string, abertura: Option<int>, fechamento: Option<int>)

  /** The duration abrirSessao applies: only null is defaulted; zero or negative is kept. */
  function DuracaoLegada(duracaoMinutos: Option<int>): (d: int)
    ensures duracaoMinutos.Some? ==> d == duracaoMinutos.value
    ensures duracaoMinutos.None? ==> d == DuracaoEfetiva(duracaoMinutos)
  {
    if duracaoMinutos != None then duracaoMinutos.value else 1
  }

  /** The two defaults agree except on a non-null duration below one minute. */
  lemma DuracaoLegadaVersusEfetiva(duracaoMinutos: Option<int>)
    ensures DuracaoLegada(duracaoMinutos) == DuracaoEfetiva(duracaoMinutos)
      <==> duracaoMinutos.None? || duracaoMinutos.value >= 1
  {
  }

  /**
   * The window test of votar: both stamps set and `agora` not after fechamento. It is estaAberta
   * without the lower bound.
   */
  predicate SessaoAceitaVoto(p: PautaLegada, agora: int): (b: bool)
    ensures EstaAberta(SessaoVotacao(p.abertura, p.fechamento, None), agora) ==> b
    ensures b <==> p.abertura.Some? && p.fechamento.Some? && agora <= p.fechamento.value
    ensures b ==>
      (EstaAberta(SessaoVotacao(p.abertura, p.fechamento, None), agora) <==> agora >= p.abertura.value)
  {
    !(p.abertura.None? || p.fechamento.None? || agora > p.fechamento.value)
  }

  /** votar has no lower bound: an instant before abertura is accepted. */
  lemma SemLimiteInferior(p: PautaLegada, agora: int)
    requires p.abertura.Some? && p.fechamento.Some? && agora < p.abertura.value <= p.fechamento.value
    ensures SessaoAceitaVoto(p, agora)
    ensures !EstaAberta(SessaoVotacao(p.abertura, p.fechamento, None), agora)
  {
  }

  class PautaService {
    /** The pauta table, keyed by id. */
    var pautas: map<nat, PautaLegada>
    /** The next value of the identity column. */
    var proximoId: nat
    const votoRepositorio: VotoRepositorio

    ghost predicate Valid()
      reads this, votoRepositorio
    {
      && (forall k | k in pautas :: k < proximoId && pautas[k].id == Some(k))
      && votoRepositorio.Valid()
    }

    constructor (votoRepositorio: VotoRepositorio)
      requires votoRepositorio.Valid()
      ensures this.votoRepositorio == votoRepositorio && pautas == map[] && Valid()
    {
      pautas := map[];
      proximoId := 0;
      this.votoRepositorio := votoRepositorio;
    }

    /** pautaRepository.save: a known id is updated in place, anything else gets a new id. */
    method Salvar(p: PautaLegada) returns (salva: PautaLegada)
      requires Valid()
      modifies this
      ensures Valid()
      ensures p.id.Some? && p.id.value in old(pautas) ==>
        salva == p && pautas == old(pautas)[p.id.value := p] && proximoId == old(proximoId)
      ensures !(p.id.Some? && p.id.value in old(pautas)) ==>
        salva == p.(id := Some(old(proximoId))) && pautas == old(pautas)[old(proximoId) := salva]
        && proximoId == old(proximoId) + 1
    {
      if p.id.Some? && p.id.value in pautas {
        pautas := pautas[p.id.value := p];
        salva := p;
      } else {
        salva := p.(id := Some(proximoId));
        pautas := pautas[proximoId := salva];
        proximoId := proximoId + 1;
      }
    }

    /** criarPauta: both stamps are cleared before saving, whatever they held. */
    method CriarPauta(pauta: PautaLegada) returns (criada: PautaLegada)
      requires Valid()
      modifies this
      ensures Valid()
      ensures criada == pauta.(id := criada.id, abertura := None, fechamento := None)
      ensures pauta.id.Some? && pauta.id.value in old(pautas) ==>
        criada.id == pauta.id && proximoId == old(proximoId)
      ensures !(pauta.id.Some? && pauta.id.value in old(pautas)) ==>
        criada.id == Some(old(proximoId)) && proximoId == old(proximoId) + 1
      ensures criada.id.Some? && pautas == old(pautas)[criada.id.value := criada]
    {
      criada := Salvar(pauta.(abertura := None, fechamento := None));
    }

    /**
     * abrirSessao(pautaId, duracaoMinutos): the clock is read once for abertura (`agora1`) and
     * again for fechamento (`agora2`); there is no already-open guard.
     */
    method AbrirSessao(pautaId: nat, duracaoMinutos: Option<int>, agora1: int, agora2: int)
      returns (r: Result<PautaLegada, Erro>)
      requires Valid()
      modifies this
      ensures Valid()
      ensures pautaId !in old(pautas) ==>
        r == Failure(FalhaInesperada) && pautas == old(pautas) && proximoId == old(proximoId)
      ensures pautaId in old(pautas) ==>
        && r.Success?
        && r.value == old(pautas)[pautaId].(abertura := Some(agora1),
                         fechamento := Some(agora2 + DuracaoLegada(duracaoMinutos) * NANOS_POR_MINUTO))
        && pautas == old(pautas)[pautaId := r.value]
        && proximoId == old(proximoId)
    {
      if pautaId !in pautas {
        return Failure(FalhaInesperada);
      }
      var pauta := pautas[pautaId];
      pauta := pauta.(abertura := Some(agora1));
      pauta := pauta.(fechamento := Some(agora2 + DuracaoLegada(duracaoMinutos) * NANOS_POR_MINUTO));
      var salva := Salvar(pauta);
      r := Success(salva);
    }

    /** votar: lookup, window upper bound, duplicate check, then the upper-cased choice and one insert. */
    method Votar(pautaId: nat, associadoId: string, escolha: string, agora: int)
      returns (r: Result<VotoRegistro, Erro>)
      requires Valid()
      modifies votoRepositorio
      ensures Valid()
      ensures pautaId !in pautas ==> r == Failure(NaoEncontrada)
      ensures pautaId in pautas && !SessaoAceitaVoto(pautas[pautaId], agora) ==> r == Failure(SessaoFechada)
      ensures pautaId in pautas && SessaoAceitaVoto(pautas[pautaId], agora)
              && old(votoRepositorio.ExistsByCpfIdAndPautaId(associadoId, pautaId)) ==>
        r == Failure(AssociadoJaVotou)
      ensures pautaId in pautas && SessaoAceitaVoto(pautas[pautaId], agora)
              && !old(votoRepositorio.ExistsByCpfIdAndPautaId(associadoId, pautaId)) ==>
        if ToUpper(escolha) == "SIM" then r == Success(VotoRegistro(associadoId, SIM, pautaId))
        else if ToUpper(escolha) == "NAO" then r == Success(VotoRegistro(associadoId, NAO, pautaId))
        else r == Failure(ArgumentoInvalido(ConstanteInexistente))
      ensures r.Failure? ==> votoRepositorio.votos == old(votoRepositorio.votos)
      ensures r.Success? ==> votoRepositorio.votos == old(votoRepositorio.votos) + [r.value]
    {
      if pautaId !in pautas {
        return Failure(NaoEncontrada);
      }
      var pauta := pautas[pautaId];
      if pauta.abertura.None? || pauta.fechamento.None? || agora > pauta.fechamento.value {
        return Failure(SessaoFechada);
      }
      if votoRepositorio.ExistsByCpfIdAndPautaId(associadoId, pautaId) {
        return Failure(AssociadoJaVotou);
      }
      var valor := ValueOf(ToUpper(escolha));
      if valor.Failure? {
        return Failure(valor.error);
      }
      var voto := VotoRegistro(associadoId, valor.value, pautaId);
      var salvo := votoRepositorio.Save(voto);
      assert salvo.Pass?;
      r := Success(voto);
    }

    /** resultadoVotacao: counts SIM and NAO by filtering the pauta's vote list. */
    function ResultadoVotacao(pautaId: nat): (r: Result<(string, nat, nat), Erro>)
      reads this, votoRepositorio
      ensures r.Failure? <==> pautaId !in pautas
      ensures r.Failure? ==> r.error == NaoEncontrada
      ensures r.Success? ==>
        && r.value.0 == pautas[pautaId].titulo
        && r.value.1 + r.value.2 == |Filtrar(votoRepositorio.votos, pautaId)|
        && r.value.1 == votoRepositorio.CountByPautaAndEscolha(pautaId, SIM)
        && r.value.2 == votoRepositorio.CountByPautaAndEscolha(pautaId, NAO)
    {
      if pautaId !in pautas then Failure(NaoEncontrada)
      else
        var votos := Filtrar(votoRepositorio.votos, pautaId);
        SimMaisNaoEhTotal(votos);
        ContagemConcordaComFiltro(votoRepositorio.votos, pautaId, SIM);
        ContagemConcordaComFiltro(votoRepositorio.votos, pautaId, NAO);
        Success((pautas[pautaId].titulo, ContarEscolha(votos, SIM), ContarEscolha(votos, NAO)))
    }
  }
}
