/** The exceptions the core throws, one constructor per distinguishable kind. */
module Erros {

  /** Reasons carried by an IllegalArgumentException. */
  datatype Motivo =
    | TituloNuloOuVazio      // TituloPauta: "não pode ser nulo ou vazio"
    | TituloMuitoLongo       // TituloPauta: "não pode ultrapassar 500 caracteres"
    | CpfNuloOuVazio         // Cpf: "não pode ser nulo ou vazio"
    | CpfSemOnzeDigitos      // Cpf: "deve conter exatamente 11 dígitos numéricos"
    | TituloNulo             // Pauta: Assert.notNull(titulo)
    | CpfNulo                // Voto: Assert.notNull(cpf)
    | EscolhaNula            // Voto: Assert.notNull(escolha)
    | PautaNula              // Voto: Assert.notNull(pauta)
    | ConstanteInexistente   // Escolha.valueOf on an unknown name

  datatype Erro =
    | ArgumentoInvalido(motivo: Motivo)  // IllegalArgumentException
    | SessaoJaAberta                     // SessaoJaAbertaException
    | NaoEncontrada                      // HTTP 404 / NotFoundException: "Pauta não encontrada"
    | SessaoNaoAberta                    // BusinessException "Sessão de votação não foi aberta"
    | SessaoFechada                      // BusinessException "Sessão de votação fechada"
    | VotoDuplicado                      // HTTP 409 "Associado já votou"
    | ChaveUnicaViolada                  // uk_cpf_pauta violated on insert (generic handler)
    | AssociadoJaVotou                   // BusinessException "Associado já votou" (id-keyed service)
    | AssociadoNaoAutorizado             // HTTP 401 "Associado não autorizado a votar"
    | EscolhaInvalida                    // BusinessException "Escolha inválida. Use SIM ou NAO."
    | PautaDuplicada                     // unique titulo_pauta column
    | FalhaInesperada                    // bare RuntimeException("Pauta não encontrada")
}
