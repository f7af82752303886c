# Assembly voting: session lifecycle and tally engine in Dafny

This project models the core of an assembly-voting service. A *pauta* (agenda item) is created under a
unique title. It can have one timed voting *sessão* opened for it. While that session is open, each
voter (*associado*, identified by a CPF) may cast one SIM/NAO vote. The votes are then tallied into
truncated percentages and an APROVADA/REPROVADA outcome. It covers:

- `sessao_votacao.dfy` (`Sessoes`): the immutable `SessaoVotacao` window. The `abrir` factory coerces
  the duration and stamps the window from one clock reading, truncated to whole seconds as the stored
  format does. `estaAberta` is the inclusive window test.
- `pauta.dfy` (`Pautas`): the `Pauta` aggregate as a class. Its `sessao` field is set once by
  `AbrirSessao`. The three-state lifecycle NoSession → Open → Closed is read off that field and the clock.
- `titulo_pauta.dfy` (`Titulos`), `cpf.dfy` (`Cpfs`) and `voto.dfy` (`Votos`): the validating value
  objects and the `Voto` entity with its stored row.
- `repositorios.dfy` (`Repositorios`): the two stores as in-memory collections. Each offers the derived
  queries its repository declares and enforces its unique key on insert.
- `voto_service.dfy` (`VotoServico`): the title-keyed registrar, an ordered guard chain that ends in
  one insert, and the tally.
- `pauta_service.dfy` (`PautaServico`): the older id-keyed service, with its own rules as written.
- `wrappers.dfy`, `erros.dfy`, `texto.dfy`: Option/Result, the error kinds (one constructor per
  exception the core throws), and ASCII string helpers.

Conventions:
- Time is an integer count of nanoseconds, the resolution of `LocalDateTime`. The clock is always a
  parameter: `agora` is the instant a method reads.
- The eligibility oracle's answer is a parameter: the `status` token, or `None` when it is missing.
- Java `null` is `None`. A thrown exception is a `Failure`/`Fail` carrying an `Erro`.

Where the variants disagree, the model follows each file as written. `VotoService` stores the
caller's `associadoId` without validating it as a `Cpf`, so the vote store holds rows
(`VotoRegistro`) whose `cpfId` is any string. `Voto.Registro` maps the validated entity onto such a
row. Two specification points are settled by the code:
- The tally has no separate TIE outcome. A tie is REPROVADA (`sim > nao` is strict).
- `SessaoJaAberta` is raised only by the `Pauta` aggregate. `PautaService.abrirSessao` overwrites the window.

## Model

| member | source | states |
|---|---|---|
| `Sessoes.TruncarAoSegundo` | src/main/java/com/henrique/votacao/domain/model/pauta/SessaoVotacao.java:24 | the stored stamp is the whole second at or below the instant (the formatter prints seconds only) |
| `Sessoes.TruncarSomaMinutos` | src/main/java/com/henrique/votacao/domain/model/pauta/SessaoVotacao.java:60-62 | adding whole minutes before or after truncation gives the same stamp |
| `Sessoes.DuracaoEfetiva` | src/main/java/com/henrique/votacao/domain/model/pauta/SessaoVotacao.java:56-58 | a null or < 1 duration becomes 1 minute; a duration >= 1 is kept unchanged |
| `Sessoes.Abrir` | src/main/java/com/henrique/votacao/domain/model/pauta/SessaoVotacao.java:55-65 | the new session is well formed: duration >= 1, fechamento = abertura + duration minutes > abertura, abertura within the second of `agora`; it is open at its own opening instant |
| `Sessoes.JanelaDeAbrir` | src/main/java/com/henrique/votacao/domain/model/pauta/SessaoVotacao.java:60-64 | the window of `abrir(d)` spans exactly the effective duration, and the session stays open for the whole first minute minus one second |
| `Sessoes.EstaAberta` | src/main/java/com/henrique/votacao/domain/model/pauta/SessaoVotacao.java:72-82 | `estaAberta(now)` iff both stamps exist and abertura <= now <= fechamento; a missing stamp means closed |
| `Sessoes.LimitesInclusivos` | src/main/java/com/henrique/votacao/domain/model/pauta/SessaoVotacao.java:81 | both boundary instants are open; one nanosecond outside either is closed |
| `Sessoes.EncerramentoDefinitivo` | src/main/java/com/henrique/votacao/domain/model/pauta/SessaoVotacao.java:81 | once now > fechamento the session is closed at every later instant |
| `Sessoes.Iguais` | src/main/java/com/henrique/votacao/domain/model/pauta/SessaoVotacao.java:96-104 | two sessions are equal iff all three fields are equal |
| `Titulos.Novo` | src/main/java/com/henrique/votacao/domain/model/pauta/TituloPauta.java:39-51 | accepted iff non-null, not blank and at most 500 chars; blank is reported before length; the value is stored verbatim |
| `Titulos.LimiteInclusivo` | src/main/java/com/henrique/votacao/domain/model/pauta/TituloPauta.java:48 | a 500-char title with a visible character is accepted |
| `Titulos.AcimaDoLimiteRejeitado` | src/main/java/com/henrique/votacao/domain/model/pauta/TituloPauta.java:48-50 | a 501-char title is rejected |
| `Titulos.Iguais` | src/main/java/com/henrique/votacao/domain/model/pauta/TituloPauta.java:57-63 | two titles are equal iff their values are equal |
| `Cpfs.Novo` | src/main/java/com/henrique/votacao/domain/model/voto/Cpf.java:39-52 | accepted iff non-null and exactly 11 chars in '0'..'9'; null/blank gives the "nulo ou vazio" error first; the number is stored verbatim |
| `Cpfs.OnzeDigitos` | src/main/java/com/henrique/votacao/domain/model/voto/Cpf.java:49 | `matches("\\d{11}")` over the whole string; a matching number is never blank, so the blank check never rejects an acceptable number |
| `Cpfs.BrancoRejeitadoAntesDoPadrao` | src/main/java/com/henrique/votacao/domain/model/voto/Cpf.java:45-51 | a blank string never matches the digit pattern, and it is rejected with the "nulo ou vazio" error, not the digit error |
| `Cpfs.Iguais` | src/main/java/com/henrique/votacao/domain/model/voto/Cpf.java:58-64 | two CPFs are equal iff their numbers are equal |
| `Votos.Nome` | src/main/java/com/henrique/votacao/domain/model/voto/Escolha.java:12-23 | `name()` is "SIM" exactly for SIM and "NAO" exactly for NAO |
| `Votos.ValueOf` | src/main/java/com/henrique/votacao/domain/model/voto/Escolha.java:12-23 | `valueOf` succeeds exactly on "SIM" and "NAO" and returns the constant with that name; otherwise IllegalArgumentException |
| `Votos.ValueOfNome` | src/main/java/com/henrique/votacao/domain/model/voto/Escolha.java:12-23 | `valueOf(e.name()) == e` for both choices |
| `Votos.Novo` | src/main/java/com/henrique/votacao/domain/model/voto/Voto.java:59-67 | succeeds iff cpf, escolha and pauta are all non-null (checked in that order); the fields equal the arguments |
| `Votos.Voto.GetCpfId` | src/main/java/com/henrique/votacao/domain/model/voto/Voto.java:84-86 | the cpf id is an 11-digit string that the Cpf constructor accepts back as the same Cpf |
| `Votos.Voto.Registro` | src/main/java/com/henrique/votacao/domain/model/voto/Voto.java:18-25 | the stored row's unique key is (getCpfId, pauta id), with the same choice |
| `Pautas.NoMaximoUmaAbertura` | src/main/java/com/henrique/votacao/domain/model/pauta/Pauta.java:65-70 | of any sequence of abrirSessao calls at most one succeeds: the first, on a pauta without a session; its session is never replaced |
| `Pautas.Pauta.constructor` | src/main/java/com/henrique/votacao/domain/model/pauta/Pauta.java:54-57 | a new pauta has the given title and no session |
| `Pautas.Pauta.Nova` | src/main/java/com/henrique/votacao/domain/model/pauta/Pauta.java:54-57 | a null title is rejected; otherwise the new pauta has no session, so temSessaoAberta and podeReceberVoto are false |
| `Pautas.Pauta.AbrirSessao` | src/main/java/com/henrique/votacao/domain/model/pauta/Pauta.java:65-70 | with a session already: SessaoJaAberta, session unchanged; without one: session := abrir(d), now open and temSessaoAberta; only `sessao` may change |
| `Pautas.Pauta.PodeReceberVoto` | src/main/java/com/henrique/votacao/domain/model/pauta/Pauta.java:77-79 | true iff a session exists and abertura <= now <= fechamento; implies temSessaoAberta |
| `Pautas.Pauta.TemSessaoAberta` | src/main/java/com/henrique/votacao/domain/model/pauta/Pauta.java:86-88 | on a valid pauta, true iff the abertura and fechamento getters are non-null |
| `Pautas.Pauta.GetTituloPauta` | src/main/java/com/henrique/votacao/domain/model/pauta/Pauta.java:105-107 | the title value is non-blank, at most 500 chars, and rebuilds the same TituloPauta |
| `Pautas.Pauta.GetAbertura` | src/main/java/com/henrique/votacao/domain/model/pauta/Pauta.java:118-120 | null iff there is no session (on a valid pauta); otherwise the session's abertura |
| `Pautas.Pauta.GetFechamento` | src/main/java/com/henrique/votacao/domain/model/pauta/Pauta.java:127-129 | null iff there is no session; otherwise the session's fechamento, which is after abertura |
| `Pautas.Pauta.GetDuracaoMinutos` | src/main/java/com/henrique/votacao/domain/model/pauta/Pauta.java:136-138 | null iff there is no session; otherwise the session's duration, which is >= 1 |
| `Pautas.Pauta.EstadoEm` | src/main/java/com/henrique/votacao/domain/model/pauta/Pauta.java:77-88 | the lifecycle state is NoSession iff no session, Open iff podeReceberVoto, Closed otherwise |
| `Pautas.EncerradaEhTerminal` | src/main/java/com/henrique/votacao/domain/model/pauta/Pauta.java:77-79 | once past fechamento the state is Closed at every later instant |
| `Repositorios.Contem` | src/main/java/com/henrique/votacao/repository/VotoRepository.java:10 | true iff some row has this (cpf id, pauta id) |
| `Repositorios.Contar` | src/main/java/com/henrique/votacao/repository/VotoRepository.java:12 | the count is at most the number of rows, and zero iff no row has that pauta and choice |
| `Repositorios.ContarAposInserir` | src/main/java/com/henrique/votacao/repository/VotoRepository.java:12 | inserting a row adds one to exactly the (pauta, choice) count it belongs to |
| `Repositorios.Filtrar` | src/main/java/com/henrique/votacao/service/PautaService.java:93 | the pauta's vote list holds only that pauta's rows, all from the store, and every stored row of that pauta is in it |
| `Repositorios.FiltrarConcatena` | src/main/java/com/henrique/votacao/service/PautaService.java:93 | the list keeps store order: filtering a concatenation is the concatenation of the filtered parts |
| `Repositorios.ContarEscolha` | src/main/java/com/henrique/votacao/service/PautaService.java:94-95 | a filtered count never exceeds the list length |
| `Repositorios.SimMaisNaoEhTotal` | src/main/java/com/henrique/votacao/service/PautaService.java:93-95 | the SIM count plus the NAO count equals the list length |
| `Repositorios.ContagemConcordaComFiltro` | src/main/java/com/henrique/votacao/repository/VotoRepository.java:12 | counting by (pauta, choice) in the store equals filtering the pauta's list by choice |
| `Repositorios.VotoRepositorio.ExistsByCpfIdAndPautaId` | src/main/java/com/henrique/votacao/repository/VotoRepository.java:10 | true iff a stored row has key (cpfId, pautaId) |
| `Repositorios.VotoRepositorio.CountByPautaAndEscolha` | src/main/java/com/henrique/votacao/repository/VotoRepository.java:12 | the count is at most the number of stored rows |
| `Repositorios.VotoRepositorio.Save` | src/main/java/com/henrique/votacao/domain/model/voto/Voto.java:23-25 | the uk_cpf_pauta key holds: a repeated key is refused as a unique-key violation with nothing written; otherwise exactly one row is appended and only its count grows |
| `Repositorios.PautaRepositorio.FindByTitulo` | src/main/java/com/henrique/votacao/repository/PautaRepository.java:12 | returns a stored pauta with that title, or nothing iff no stored pauta has it |
| `Repositorios.PautaRepositorio.ExistsByTitulo` | src/main/java/com/henrique/votacao/repository/PautaRepository.java:14 | true iff some stored pauta has the title, iff findByTitulo finds one |
| `Repositorios.PautaRepositorio.Save` | src/main/java/com/henrique/votacao/domain/model/pauta/TituloPauta.java:23 | the unique title column refuses a repeated title; otherwise a fresh pauta with the next id and no session is stored and found by its title |
| `VotoServico.Apurar` | src/main/java/com/henrique/votacao/service/VotoService.java:75-84 | zero votes iff the no-votes branch; otherwise APROVADA iff sim > nao (a tie is REPROVADA) |
| `VotoServico.PercentuaisLimitados` | src/main/java/com/henrique/votacao/service/VotoService.java:81-82 | with votes, each truncated percentage is in [0,100] and their sum is 99 or 100 |
| `VotoServico.StatusConcordaComPercentuais` | src/main/java/com/henrique/votacao/service/VotoService.java:81-84 | APROVADA iff percSim > percNao |
| `VotoServico.EmpateReprova` | src/main/java/com/henrique/votacao/service/VotoService.java:84 | a tie n/n gives 50/50 and REPROVADA |
| `VotoServico.ExemploQuatroADois` | src/test/java/com/henrique/votacao/service/VotoServiceTest.java:116-135 | 4 SIM and 2 NAO give 66 / 33 and APROVADA |
| `VotoServico.ValidarSessaoAberta` | src/main/java/com/henrique/votacao/service/VotoService.java:97-109 | passes iff both stamps exist and abertura <= now <= fechamento; "não foi aberta" iff a stamp is missing; otherwise "fechada" |
| `VotoServico.ValidacaoConcordaComPauta` | src/main/java/com/henrique/votacao/service/VotoService.java:97-109 | on a valid pauta the service's check passes iff podeReceberVoto, and reports "não foi aberta" iff there is no session |
| `VotoServico.Autorizado` | src/main/java/com/henrique/votacao/service/VotoService.java:128-136 | only a status equal to ABLE_TO_VOTE ignoring case passes; a missing status fails |
| `VotoServico.OraculoFalhaFechado` | src/main/java/com/henrique/votacao/service/VotoService.java:132-135 | no status and UNABLE_TO_VOTE are refused; "able_to_vote" passes |
| `VotoServico.ParseEscolha` | src/main/java/com/henrique/votacao/service/VotoService.java:144-150 | SIM iff the text equals "SIM" ignoring case, NAO iff it equals "NAO" ignoring case, otherwise "Escolha inválida" |
| `VotoServico.ParseEscolhaExemplos` | src/main/java/com/henrique/votacao/service/VotoService.java:144-150 | "sim" and "Sim" parse as SIM, "nao" as NAO, "talvez" is refused |
| `VotoServico.Triagem` | src/main/java/com/henrique/votacao/service/VotoService.java:48-52 | succeeds iff every guard passes; a session error wins over everything; a repeat vote is CONFLICT before the oracle is asked; then UNAUTHORIZED; then "Escolha inválida" |
| `VotoServico.OraculoIrrelevanteAntesDaConsulta` | src/main/java/com/henrique/votacao/service/VotoService.java:48-50 | when the session check fails or the vote is a repeat, the outcome does not depend on the oracle's answer |
| `VotoServico.VotoService.RegistrarVotoPorTitulo` | src/main/java/com/henrique/votacao/service/VotoService.java:44-60 | unknown title: NOT_FOUND; otherwise the guard chain decides; on success exactly one row (associadoId, parsed choice, pauta id) is appended and returned; every failure writes nothing |
| `VotoServico.VotoService.CalcularResultadoPorTitulo` | src/main/java/com/henrique/votacao/service/VotoService.java:68-90 | unknown title: NOT_FOUND; otherwise the tally of the two store counts, with the no-votes branch iff the pauta has no votes |
| `PautaServico.DuracaoLegada` | src/main/java/com/henrique/votacao/service/PautaService.java:45 | a null duration becomes 1; any given duration, even <= 0, is used as is |
| `PautaServico.DuracaoLegadaVersusEfetiva` | src/main/java/com/henrique/votacao/service/PautaService.java:45 | the id-keyed default agrees with SessaoVotacao's exactly when the duration is null or >= 1 |
| `PautaServico.SemLimiteInferior` | src/main/java/com/henrique/votacao/service/PautaService.java:61-65 | votar accepts an instant before abertura, which estaAberta would refuse |
| `PautaServico.SessaoAceitaVoto` | src/main/java/com/henrique/votacao/service/PautaService.java:62 | accepted iff both stamps exist and now <= fechamento; every instant estaAberta accepts is accepted, and on accepted instants estaAberta holds iff now is not before abertura |
| `PautaServico.PautaService.Salvar` | src/main/java/com/henrique/votacao/service/PautaService.java:35 | a known id is updated in place; anything else is stored under the next id |
| `PautaServico.PautaService.CriarPauta` | src/main/java/com/henrique/votacao/service/PautaService.java:31-36 | the saved pauta is the given one with null abertura and fechamento; it keeps a known id and otherwise gets the next id; the table changes at that one key only |
| `PautaServico.PautaService.AbrirSessao` | src/main/java/com/henrique/votacao/service/PautaService.java:39-48 | unknown id: RuntimeException, nothing changes; otherwise abertura := first clock reading, fechamento := second reading + duration, with no already-open guard, so a re-open overwrites; the table changes at that key only and the id counter is untouched |
| `PautaServico.PautaService.Votar` | src/main/java/com/henrique/votacao/service/PautaService.java:51-81 | unknown id: NotFound; missing stamp or now > fechamento: "fechada"; repeat: "Associado já votou"; an unknown upper-cased choice escapes as IllegalArgumentException; success appends exactly one row; failure writes nothing |
| `PautaServico.PautaService.ResultadoVotacao` | src/main/java/com/henrique/votacao/service/PautaService.java:84-101 | unknown id: NotFound; otherwise the SIM and NAO counts of the pauta's list, which add up to its length and equal the store's counts |
| `Texto.ToUpper` | src/main/java/com/henrique/votacao/service/VotoService.java:146 | upper-casing keeps the length and maps each character independently |
| `Texto.EqualsIgnoreCase` | src/main/java/com/henrique/votacao/service/VotoService.java:132 | equal strings compare equal; in general true iff same length and each pair of characters is equal or the lower/upper case of one ASCII letter |
| `Texto.EqualsIgnoreCaseIffUpperEqual` | src/main/java/com/henrique/votacao/service/VotoService.java:132 | equality ignoring case is equality of the upper-cased strings |
| `Texto.IsBlank` | src/main/java/com/henrique/votacao/domain/model/pauta/TituloPauta.java:45 | `isBlank` is true iff every character is whitespace (the empty string included) |

## Left out

- HTTP controllers, the exception-to-status mapping, logging, DTOs and the result-message string
  builders. The tally's `%.2f` formatting is floating-point presentation; `Apurar` returns the integer
  percentages it would print.
- `LocalDateTime.now()` is an explicit parameter. The string round trip through the
  `dd/MM/yyyy - HH'h'mm'm'ss's'` formatter is modelled only by its effect, truncation to whole seconds.
  Calendar arithmetic and the `DateTimeException` for instants outside the supported range are not modelled.
- The eligibility client is random. Its answer is the `status` parameter. An exception thrown by the
  client (unexpected error) is not modelled.
- Database identity generation. `PautaRepositorio.Save` and `PautaService.Salvar` hand out
  increasing ids, and the `Pauta` constructor takes its id as an argument. The vote row's own
  generated id is not modelled.
- Concurrency. Two registrations for the same key racing past the duplicate check are not modelled.
  Only the sequential store invariant (unique key, `VotoRepositorio.Save` refusing a repeated key) is modelled.
- `toUpperCase`, `equalsIgnoreCase` and `isBlank` are ASCII-only here. Java's locale-sensitive and
  full-Unicode behaviour is left out, as is the UTF-16 code-unit count of `String.length()`. A Dafny
  `char` is a Unicode scalar value.
- Null `titulo`, `associadoId` or `escolhaStr` passed to the services. In Java these are null-pointer
  or database not-null failures, and the service parameters here are non-null strings.
- `getId`, `getTitulo`, `getSessao`, `getCpf`, `getEscolha`, `getPauta`, `getValor`, `getNumero` and
  the `toString` methods are plain field reads of the datatypes and classes. `hashCode` is left out.
- `Votos.Voto` refers to its pauta by id instead of by object reference. The lazy JPA association is
  not modelled.
- The legacy `Pauta` bean has no `getVotos`. `PautaService.resultadoVotacao` is modelled over the
  pauta's rows in the vote store, in store order.
- `VotoRepositorio.CountByPautaAndEscolha`: the Java counts are `long`. The model does not bound
  them, and `sim * 100` overflowing 64 bits would need more than 9·10^16 votes.
- The `PautaService` variant uses `existsByAssociadoIdAndPautaId`, and `VotoService` uses
  `pautaService.buscarPorTitulo`. Neither is declared in this variant of the repositories or
  services. They are modelled as `ExistsByCpfIdAndPautaId` and `FindByTitulo`.
