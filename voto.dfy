/** Escolha and Voto: a voter's immutable choice on one pauta. */
module Votos {
  import opened Wrappers
  import opened Erros
  import opened Cpfs

  datatype Escolha = SIM | NAO

  /** Escolha.name(). */
  function Nome(e: Escolha): (r: string)
    ensures r == "SIM" <==> e == SIM
    ensures r == "NAO" <==> e == NAO
  {
    match e
    case SIM => "SIM"
    case NAO => "NAO"
  }

  /** Escolha.valueOf: exact, case-sensitive match of a constant name. */
  function ValueOf(nome: string): (r: Result<Escolha, Erro>)
    ensures r.Success? ==> Nome(r.value) == nome
    ensures r.Failure? <==> nome != "SIM" && nome != "NAO"
    ensures r.Failure? ==> r.error == ArgumentoInvalido(ConstanteInexistente)
  {
    if nome == "SIM" then Success(SIM)
    else if nome == "NAO" then Success(NAO)
    else Failure(ArgumentoInvalido(ConstanteInexistente))
  }

  /** valueOf inverts name. */
  lemma ValueOfNome(e: Escolha)
    ensures ValueOf(Nome(e)) == Success(e)
  {
  }

  /**
   * The row stored in the voto table: cpf_id, escolha and the pauta_id foreign key.
   * It is what the services build with setters and hand to the repository.
   */
  datatype VotoRegistro = VotoRegistro(cpfId: string, escolha: Escolha, pautaId: nat)

  /** The unique key uk_cpf_pauta. */
  function Chave(v: VotoRegistro): (string, nat) {
    (v.cpfId, v.pautaId)
  }

  /** The Voto entity: fields fixed by the constructor, no setters; the pauta is held by its id. */
  datatype Voto = Voto(cpf: CpfValido, escolha: Escolha, pautaId: nat) {

    /** Voto.getCpfId: the stored number, always eleven digits. */
    function GetCpfId(): (r: string)
      ensures OnzeDigitos(r)
      ensures Cpfs.Novo(Some(r)) == Success(cpf)
    {
      cpf.numero
    }

    /** The row this entity is persisted as. */
    function Registro(): (v: VotoRegistro)
      ensures Chave(v) == (GetCpfId(), pautaId) && v.escolha == escolha
    {
      VotoRegistro(cpf.numero, escolha, pautaId)
    }
  }

  /** new Voto(cpf, escolha, pauta): each argument is null-checked in order, then stored as given. */
  function Novo(cpf: Option<CpfValido>, escolha: Option<Escolha>, pautaId: Option<nat>): (r: Result<Voto, Erro>)
    ensures r.Success? <==> cpf.Some? && escolha.Some? && pautaId.Some?
    ensures r.Success? ==> r.value.cpf == cpf.value && r.value.escolha == escolha.value && r.value.pautaId == pautaId.value
    ensures cpf.None? ==> r == Failure(ArgumentoInvalido(CpfNulo))
    ensures cpf.Some? && escolha.None? ==> r == Failure(ArgumentoInvalido(EscolhaNula))
    ensures cpf.Some? && escolha.Some? && pautaId.None? ==> r == Failure(ArgumentoInvalido(PautaNula))
  {
    if cpf.None? then Failure(ArgumentoInvalido(CpfNulo))
    else if escolha.None? then Failure(ArgumentoInvalido(EscolhaNula))
    else if pautaId.None? then Failure(ArgumentoInvalido(PautaNula))
    else Success(Voto(cpf.value, escolha.value, pautaId.value))
  }
}
