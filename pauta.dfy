/**
 * Pauta: the aggregate root. Its only mutable state is the optional voting session,
 * set once by abrirSessao; whether the session is open is re-evaluated at every read.
 */
module Pautas {
  import opened Wrappers
  import opened Erros
  import opened Titulos
  import opened Sessoes

  /** The three states of a pauta's voting lifecycle at a given instant. */
  datatype Estado = SemSessao | Aberta | Encerrada

  /** One abrirSessao call: the requested duration and the clock reading it sees. */
  datatype Pedido = Pedido(duracaoMinutos: Option<int>, agora: int)

  /** The effect of abrirSessao on the session field and whether the call returned normally. */
  function PassoAbrirSessao(sessao: Option<SessaoVotacao>, p: Pedido): (Option<SessaoVotacao>, bool) {
    if sessao.Some? then (sessao, false) else (Some(Abrir(p.duracaoMinutos, p.agora)), true)
  }

  /** The session left by a sequence of abrirSessao calls, and how many of them succeeded. */
  function AbrirEmSequencia(sessao: Option<SessaoVotacao>, pedidos: seq<Pedido>): (Option<SessaoVotacao>, nat)
    decreases |pedidos|
  {
    if pedidos == [] then (sessao, 0)
    else
      var (depois, ok) := PassoAbrirSessao(sessao, pedidos[0]);
      var (final, n) := AbrirEmSequencia(depois, pedidos[1..]);
      (final, n + if ok then 1 else 0)
  }

  /**
   * Of any sequence of abrirSessao calls at most one succeeds: the first one, on a pauta
   * without a session; the session it creates is never replaced.
   */
  lemma {:induction false} NoMaximoUmaAbertura(sessao: Option<SessaoVotacao>, pedidos: seq<Pedido>)
    ensures AbrirEmSequencia(sessao, pedidos).1 <= 1
    ensures sessao.Some? ==> AbrirEmSequencia(sessao, pedidos) == (sessao, 0)
    ensures sessao.None? && pedidos != [] ==>
      AbrirEmSequencia(sessao, pedidos) == (Some(Abrir(pedidos[0].duracaoMinutos, pedidos[0].agora)), 1)
    ensures sessao.None? && pedidos == [] ==> AbrirEmSequencia(sessao, pedidos) == (None, 0)
    decreases |pedidos|
  {
    if pedidos != [] {
      var (depois, ok) := PassoAbrirSessao(sessao, pedidos[0]);
      NoMaximoUmaAbertura(depois, pedidos[1..]);
    }
  }

  class Pauta {
    /** The generated identity. */
    const id: nat
    /** The title; Pauta has no setter for it. */
    const titulo: TituloValido
    /** The embedded session; None until abrirSessao succeeds. */
    var sessao: Option<SessaoVotacao>

    /** A stored session is one that SessaoVotacao.abrir built. */
    ghost predicate Valid()
      reads this
    {
      sessao.Some? ==> sessao.value.BemFormada()
    }

    /** new Pauta(titulo) for a non-null title, under the identity the store assigns. */
    constructor (id: nat, titulo: TituloValido)
      ensures this.id == id && this.titulo == titulo
      ensures sessao.None? && Valid()
    {
      this.id := id;
      this.titulo := titulo;
      sessao := None;
    }

    /** new Pauta(titulo) including the null check (Assert.notNull). */
    static method Nova(id: nat, titulo: Option<TituloValido>) returns (r: Result<Pauta, Erro>)
      ensures r.Failure? <==> titulo.None?
      ensures r.Failure? ==> r.error == ArgumentoInvalido(TituloNulo)
      ensures r.Success? ==> fresh(r.value) && r.value.id == id && r.value.titulo == titulo.value
      ensures r.Success? ==> r.value.sessao.None? && r.value.Valid()
      ensures r.Success? ==> !r.value.TemSessaoAberta() && forall agora :: !r.value.PodeReceberVoto(agora)
    {
      if titulo.None? {
        return Failure(ArgumentoInvalido(TituloNulo));
      }
      var p := new Pauta(id, titulo.value);
      r := Success(p);
    }

    /** abrirSessao: one-shot; a second call throws SessaoJaAbertaException and changes nothing. */
    method AbrirSessao(duracaoMinutos: Option<int>, agora: int) returns (r: Outcome<Erro>)
      requires Valid()
      modifies this`sessao
      ensures Valid()
      ensures (sessao, r.Pass?) == PassoAbrirSessao(old(sessao), Pedido(duracaoMinutos, agora))
      ensures old(sessao).Some? ==> r == Fail(SessaoJaAberta) && sessao == old(sessao)
      ensures old(sessao).None? ==> r == Pass && sessao == Some(Abrir(duracaoMinutos, agora))
      ensures old(sessao).None? ==> TemSessaoAberta() && PodeReceberVoto(agora)
      ensures TemSessaoAberta()
    {
      if sessao.Some? {
        return Fail(SessaoJaAberta);
      }
      sessao := Some(Abrir(duracaoMinutos, agora));
      r := Pass;
    }

    /** podeReceberVoto: a session exists and is open at `agora`. */
    predicate PodeReceberVoto(agora: int)
      reads this
      ensures PodeReceberVoto(agora) ==> TemSessaoAberta()
      ensures PodeReceberVoto(agora) <==>
        sessao.Some? && sessao.value.abertura.Some? && sessao.value.fechamento.Some?
        && sessao.value.abertura.value <= agora <= sessao.value.fechamento.value
    {
      sessao.Some? && EstaAberta(sessao.value, agora)
    }

    /** temSessaoAberta: a session was opened, whether or not it is still open. */
    predicate TemSessaoAberta()
      reads this
      ensures Valid() ==> (TemSessaoAberta() <==> GetAbertura().Some? && GetFechamento().Some?)
    {
      sessao.Some?
    }

    /** getTituloPauta: the title's value, never blank and at most 500 characters. */
    function GetTituloPauta(): (r: string)
      ensures ValorValido(r) && Titulos.Novo(Some(r)) == Success(titulo)
    {
      titulo.valor
    }

    /** getAbertura: null when there is no session. */
    function GetAbertura(): (r: Option<int>)
      reads this
      ensures sessao.None? ==> r.None?
      ensures Valid() ==> (r.None? <==> sessao.None?)
      ensures r.Some? ==> sessao.Some? && r == sessao.value.abertura
    {
      if sessao.Some? then sessao.value.abertura else None
    }

    /** getFechamento: null when there is no session. */
    function GetFechamento(): (r: Option<int>)
      reads this
      ensures sessao.None? ==> r.None?
      ensures Valid() ==> (r.None? <==> sessao.None?)
      ensures r.Some? ==> sessao.Some? && r == sessao.value.fechamento
      ensures Valid() && r.Some? ==> r.value > GetAbertura().value
    {
      if sessao.Some? then sessao.value.fechamento else None
    }

    /** getDuracaoMinutos: null when there is no session, otherwise at least one minute. */
    function GetDuracaoMinutos(): (r: Option<int>)
      reads this
      ensures sessao.None? ==> r.None?
      ensures Valid() ==> (r.None? <==> sessao.None?)
      ensures r.Some? ==> sessao.Some? && r == sessao.value.duracaoMinutos
      ensures Valid() && r.Some? ==> r.value >= DURACAO_PADRAO_MINUTOS
    {
      if sessao.Some? then sessao.value.duracaoMinutos else None
    }

    /** The lifecycle state at `agora`, read off the stored session and the clock. */
    function EstadoEm(agora: int): (e: Estado)
      reads this
      ensures e == SemSessao <==> !TemSessaoAberta()
      ensures e == Aberta <==> PodeReceberVoto(agora)
    {
      if sessao.None? then SemSessao
      else if EstaAberta(sessao.value, agora) then Aberta
      else Encerrada
    }
  }

  /** Encerrada is terminal: once past the closing instant, the state never changes again. */
  lemma EncerradaEhTerminal(p: Pauta, agora: int, depois: int)
    requires p.Valid() && p.TemSessaoAberta()
    requires agora > p.GetFechamento().value && depois >= agora
    ensures p.EstadoEm(agora) == Encerrada && p.EstadoEm(depois) == Encerrada
  {
    EncerramentoDefinitivo(p.sessao.value, agora, depois);
  }
}
