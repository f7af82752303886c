/**
 * SessaoVotacao: the immutable voting window embedded in a Pauta.
 * Instants are integers counting nanoseconds (the resolution of LocalDateTime);
 * the stored stamps go through a formatter that prints whole seconds only.
 */
module Sessoes {
  import opened Wrappers

  const NANOS_POR_SEGUNDO: int := 1_000_000_000
  const NANOS_POR_MINUTO: int := 60 * NANOS_POR_SEGUNDO
  /** Duration in minutes used when abrir is given null or a value below one. */
  const DURACAO_PADRAO_MINUTOS: int := 1

  /** Formatting with "dd/MM/yyyy - HH'h'mm'm'ss's'" and parsing back drops the fraction of a second. */
  function TruncarAoSegundo(t: int): (r: int)
    ensures r <= t < r + NANOS_POR_SEGUNDO
    ensures r % NANOS_POR_SEGUNDO == 0
  {
    t - t % NANOS_POR_SEGUNDO
  }

  /** Adding whole minutes commutes with dropping the fraction of a second. */
  lemma TruncarSomaMinutos(t: int, m: int)
    ensures TruncarAoSegundo(t + m * NANOS_POR_MINUTO) == TruncarAoSegundo(t) + m * NANOS_POR_MINUTO
  {
    var a := TruncarAoSegundo(t);
    var b := TruncarAoSegundo(t + m * NANOS_POR_MINUTO);
    var c := a + m * NANOS_POR_MINUTO;
    assert c % NANOS_POR_SEGUNDO == 0 by {
      assert c == (a / NANOS_POR_SEGUNDO + 60 * m) * NANOS_POR_SEGUNDO;
    }
    assert c <= t + m * NANOS_POR_MINUTO < c + NANOS_POR_SEGUNDO;
    UnicoMultiploNoIntervalo(b, c, t + m * NANOS_POR_MINUTO);
  }

  /** Two multiples of a second within one second below the same instant are equal. */
  lemma UnicoMultiploNoIntervalo(b: int, c: int, x: int)
    requires b % NANOS_POR_SEGUNDO == 0 && c % NANOS_POR_SEGUNDO == 0
    requires b <= x < b + NANOS_POR_SEGUNDO && c <= x < c + NANOS_POR_SEGUNDO
    ensures b == c
  {
    var qb, qc := b / NANOS_POR_SEGUNDO, c / NANOS_POR_SEGUNDO;
    assert b == qb * NANOS_POR_SEGUNDO && c == qc * NANOS_POR_SEGUNDO;
  }

  /** The three columns of the embedded value; null when built by the JPA constructor. */
  datatype SessaoVotacao = SessaoVotacao(abertura: Option<int>, fechamento: Option<int>, duracaoMinutos: Option<int>) {

    /** What every session produced by Abrir satisfies. */
    predicate BemFormada() {
      && abertura.Some? && fechamento.Some? && duracaoMinutos.Some?
      && duracaoMinutos.value >= DURACAO_PADRAO_MINUTOS
      && abertura.value % NANOS_POR_SEGUNDO == 0
      && fechamento.value == abertura.value + duracaoMinutos.value * NANOS_POR_MINUTO
    }
  }

  /** The duration abrir keeps: a null or below-one request becomes the one-minute default. */
  function DuracaoEfetiva(duracaoMinutos: Option<int>): (d: int)
    ensures d >= DURACAO_PADRAO_MINUTOS
    ensures duracaoMinutos.Some? && duracaoMinutos.value >= 1 ==> d == duracaoMinutos.value
    ensures duracaoMinutos.None? || duracaoMinutos.value < 1 ==> d == DURACAO_PADRAO_MINUTOS
  {
    if duracaoMinutos.None? || duracaoMinutos.value < 1 then DURACAO_PADRAO_MINUTOS else duracaoMinutos.value
  }

  /** SessaoVotacao.abrir: both stamps come from the single clock read `agora`. */
  function Abrir(duracaoMinutos: Option<int>, agora: int): (s: SessaoVotacao)
    ensures s.BemFormada()
    ensures s.duracaoMinutos == Some(DuracaoEfetiva(duracaoMinutos))
    ensures s.abertura.value <= agora < s.abertura.value + NANOS_POR_SEGUNDO
    ensures s.fechamento.value > s.abertura.value
    ensures EstaAberta(s, agora)
  {
    var d := DuracaoEfetiva(duracaoMinutos);
    TruncarSomaMinutos(agora, d);
    SessaoVotacao(Some(TruncarAoSegundo(agora)), Some(TruncarAoSegundo(agora + d * NANOS_POR_MINUTO)), Some(d))
  }

  /** SessaoVotacao.estaAberta: neither before the opening nor after the closing stamp. */
  /** The window is the closed interval [abertura, fechamento]; a missing stamp means closed. */
  predicate EstaAberta(s: SessaoVotacao, agora: int): (b: bool)
    ensures b <==> s.abertura.Some? && s.fechamento.Some? && s.abertura.value <= agora <= s.fechamento.value
    ensures s.abertura.None? || s.fechamento.None? ==> !b
  {
    if s.abertura.None? || s.fechamento.None? then false
    else !(agora < s.abertura.value) && !(agora > s.fechamento.value)
  }

  /** Both boundary instants of a well-formed session count as open. */
  lemma LimitesInclusivos(s: SessaoVotacao)
    requires s.BemFormada()
    ensures EstaAberta(s, s.abertura.value) && EstaAberta(s, s.fechamento.value)
    ensures !EstaAberta(s, s.abertura.value - 1) && !EstaAberta(s, s.fechamento.value + 1)
  {
  }

  /** Closed is terminal: once past fechamento, the session is closed at every later instant. */
  lemma EncerramentoDefinitivo(s: SessaoVotacao, agora: int, depois: int)
    requires s.fechamento.Some? && agora > s.fechamento.value && depois >= agora
    ensures !EstaAberta(s, agora) && !EstaAberta(s, depois)
  {
  }

  /** The window of a session opened at `agora` lasts the effective duration, to the second. */
  lemma JanelaDeAbrir(duracaoMinutos: Option<int>, agora: int, t: int)
    ensures var s := Abrir(duracaoMinutos, agora);
      s.fechamento.value - s.abertura.value == DuracaoEfetiva(duracaoMinutos) * NANOS_POR_MINUTO
    ensures agora <= t <= agora + NANOS_POR_MINUTO - NANOS_POR_SEGUNDO ==> EstaAberta(Abrir(duracaoMinutos, agora), t)
  {
    var s := Abrir(duracaoMinutos, agora);
    assert s.abertura.value <= agora;
    assert s.fechamento.value >= s.abertura.value + NANOS_POR_MINUTO;
  }

  /** SessaoVotacao.equals: equal iff the three fields are equal. */
  function Iguais(a: SessaoVotacao, b: SessaoVotacao): (r: bool)
    ensures r <==> a == b
  {
    a.abertura == b.abertura && a.fechamento == b.fechamento && a.duracaoMinutos == b.duracaoMinutos
  }
}
