/**
 * The two stores, as in-memory collections offering the derived queries the
 * repositories declare, plus the database constraints that guard their inserts.
 */
module Repositorios {
  import opened Wrappers
  import opened Erros
  import opened Titulos
  import opened Votos
  import opened Pautas

  /** No two rows share (cpf_id, pauta_id). */
  ghost predicate ChavesUnicas(votos: seq<VotoRegistro>) {
    forall i, j | 0 <= i < j < |votos| :: Chave(votos[i]) != Chave(votos[j])
  }

  /** Whether some row has this (cpf_id, pauta_id). */
  function Contem(votos: seq<VotoRegistro>, cpfId: string, pautaId: nat): (r: bool)
    ensures r <==> exists i | 0 <= i < |votos| :: votos[i].cpfId == cpfId && votos[i].pautaId == pautaId
  {
    if votos == [] then false
    else (votos[0].cpfId == cpfId && votos[0].pautaId == pautaId) || Contem(votos[1..], cpfId, pautaId)
  }

  /** Rows for the given pauta with the given choice, counted in the store. */
  function Contar(votos: seq<VotoRegistro>, pautaId: nat, e: Escolha): (n: nat)
    ensures n <= |votos|
    ensures n == 0 <==> forall i | 0 <= i < |votos| :: !(votos[i].pautaId == pautaId && votos[i].escolha == e)
  {
    if votos == [] then 0
    else (if votos[0].pautaId == pautaId && votos[0].escolha == e then 1 else 0) + Contar(votos[1..], pautaId, e)
  }

  /** Appending one row adds one to exactly the count it belongs to. */
  lemma {:induction false} ContarAposInserir(votos: seq<VotoRegistro>, v: VotoRegistro, pautaId: nat, e: Escolha)
    ensures Contar(votos + [v], pautaId, e) ==
      Contar(votos, pautaId, e) + if v.pautaId == pautaId && v.escolha == e then 1 else 0
    decreases |votos|
  {
    if votos != [] {
      assert (votos + [v])[1..] == votos[1..] + [v];
      ContarAposInserir(votos[1..], v, pautaId, e);
    }
  }

  /** The rows of one pauta, in store order: the pauta's vote list. */
  function Filtrar(votos: seq<VotoRegistro>, pautaId: nat): (r: seq<VotoRegistro>)
    ensures |r| <= |votos|
    ensures forall i | 0 <= i < |r| :: r[i].pautaId == pautaId && r[i] in votos
    ensures forall i | 0 <= i < |votos| && votos[i].pautaId == pautaId :: votos[i] in r
  {
    if votos == [] then []
    else
      assert forall i | 1 <= i < |votos| :: votos[i] == votos[1..][i - 1];
      (if votos[0].pautaId == pautaId then [votos[0]] else []) + Filtrar(votos[1..], pautaId)
  }

  /** Filtering keeps store order: the list of a concatenation is the concatenation of the lists. */
  lemma {:induction false} FiltrarConcatena(a: seq<VotoRegistro>, b: seq<VotoRegistro>, pautaId: nat)
    ensures Filtrar(a + b, pautaId) == Filtrar(a, pautaId) + Filtrar(b, pautaId)
    decreases |a|
  {
    if a == [] {
      assert a + b == b;
    } else {
      assert (a + b)[1..] == a[1..] + b;
      FiltrarConcatena(a[1..], b, pautaId);
    }
  }

  /** stream().filter(v -> v.getEscolha() == e).count() over a list. */
  function ContarEscolha(lista: seq<VotoRegistro>, e: Escolha): (n: nat)
    ensures n <= |lista|
  {
    if lista == [] then 0
    else (if lista[0].escolha == e then 1 else 0) + ContarEscolha(lista[1..], e)
  }

  /** Every vote is SIM or NAO, so the two filtered counts add up to the list's length. */
  lemma {:induction false} SimMaisNaoEhTotal(lista: seq<VotoRegistro>)
    ensures ContarEscolha(lista, SIM) + ContarEscolha(lista, NAO) == |lista|
    decreases |lista|
  {
    if lista != [] {
      SimMaisNaoEhTotal(lista[1..]);
    }
  }

  /** Counting in the store by (pauta, escolha) equals filtering the pauta's list by escolha. */
  lemma {:induction false} ContagemConcordaComFiltro(votos: seq<VotoRegistro>, pautaId: nat, e: Escolha)
    ensures Contar(votos, pautaId, e) == ContarEscolha(Filtrar(votos, pautaId), e)
    decreases |votos|
  {
    if votos != [] {
      ContagemConcordaComFiltro(votos[1..], pautaId, e);
      var cabeca := if votos[0].pautaId == pautaId then [votos[0]] else [];
      ContarEscolhaConcatena(cabeca, Filtrar(votos[1..], pautaId), e);
    }
  }

  lemma {:induction false} ContarEscolhaConcatena(a: seq<VotoRegistro>, b: seq<VotoRegistro>, e: Escolha)
    ensures ContarEscolha(a + b, e) == ContarEscolha(a, e) + ContarEscolha(b, e)
    decreases |a|
  {
    if a != [] {
      assert (a + b)[1..] == a[1..] + b;
      ContarEscolhaConcatena(a[1..], b, e);
    } else {
      assert a + b == b;
    }
  }

  /** VotoRepository over the voto table. */
  class VotoRepositorio {
    var votos: seq<VotoRegistro>

    ghost predicate Valid()
      reads this
    {
      ChavesUnicas(votos)
    }

    constructor ()
      ensures votos == [] && Valid()
    {
      votos := [];
    }

    /** existsBycpfIdAndPautaId. */
    function ExistsByCpfIdAndPautaId(cpfId: string, pautaId: nat): (r: bool)
      reads this
      ensures r <==> exists i | 0 <= i < |votos| :: Chave(votos[i]) == (cpfId, pautaId)
    {
      Contem(votos, cpfId, pautaId)
    }

    /** countByPautaAndEscolha. */
    function CountByPautaAndEscolha(pautaId: nat, e: Escolha): (n: nat)
      reads this
      ensures n <= |votos|
    {
      Contar(votos, pautaId, e)
    }

    /** save of a new row; the unique key uk_cpf_pauta rejects a second row for the same key. */
    method Save(v: VotoRegistro) returns (r: Outcome<Erro>)
      requires Valid()
      modifies this
      ensures Valid()
      ensures r == Fail(ChaveUnicaViolada) <==> old(ExistsByCpfIdAndPautaId(v.cpfId, v.pautaId))
      ensures r.Fail? ==> r.error == ChaveUnicaViolada && votos == old(votos)
      ensures r.Pass? ==> votos == old(votos) + [v]
      ensures forall p: nat, e: Escolha :: (CountByPautaAndEscolha(p, e) ==
        old(CountByPautaAndEscolha(p, e)) + if r.Pass? && v.pautaId == p && v.escolha == e then 1 else 0)
    {
      if Contem(votos, v.cpfId, v.pautaId) {
        return Fail(ChaveUnicaViolada);
      }
      forall p: nat, e: Escolha ensures Contar(votos + [v], p, e) ==
        Contar(votos, p, e) + if v.pautaId == p && v.escolha == e then 1 else 0 {
        ContarAposInserir(votos, v, p, e);
      }
      votos := votos + [v];
      r := Pass;
    }
  }

  /** PautaRepository over the pauta table; titulo_pauta is a unique column. */
  class PautaRepositorio {
    var pautas: seq<Pauta>
    /** The next value of the identity column. */
    var proximoId: nat

    ghost predicate Valid()
      reads this
    {
      && (forall i, j | 0 <= i < j < |pautas| :: pautas[i].titulo.valor != pautas[j].titulo.valor)
      && (forall i | 0 <= i < |pautas| :: pautas[i].id < proximoId)
      && (forall i, j | 0 <= i < j < |pautas| :: pautas[i].id != pautas[j].id)
    }

    constructor ()
      ensures pautas == [] && Valid()
    {
      pautas := [];
      proximoId := 0;
    }

    /** findByTitulo: the pauta whose title has this value, if any. */
    function FindByTitulo(titulo: string): (r: Option<Pauta>)
      reads this
      ensures r.Some? ==> r.value in pautas && r.value.titulo.valor == titulo
      ensures r.None? <==> forall i | 0 <= i < |pautas| :: pautas[i].titulo.valor != titulo
    {
      Procurar(pautas, titulo)
    }

    /** existsByTitulo. */
    function ExistsByTitulo(titulo: string): (r: bool)
      reads this
      ensures r <==> exists i | 0 <= i < |pautas| :: pautas[i].titulo.valor == titulo
      ensures r <==> FindByTitulo(titulo).Some?
    {
      Procurar(pautas, titulo).Some?
    }

    /** save of a new pauta: the identity column assigns the id, the unique title rejects a repeat. */
    method Save(titulo: TituloValido) returns (r: Result<Pauta, Erro>)
      requires Valid()
      modifies this
      ensures Valid()
      ensures r.Failure? <==> old(ExistsByTitulo(titulo.valor))
      ensures r.Failure? ==> r.error == PautaDuplicada && pautas == old(pautas) && proximoId == old(proximoId)
      ensures r.Success? ==> fresh(r.value) && pautas == old(pautas) + [r.value]
      ensures r.Success? ==> r.value.id == old(proximoId) && r.value.titulo == titulo
      ensures r.Success? ==> r.value.sessao.None? && r.value.Valid()
      ensures r.Success? ==> FindByTitulo(titulo.valor) == Some(r.value)
    {
      if Procurar(pautas, titulo.valor).Some? {
        return Failure(PautaDuplicada);
      }
      var p := new Pauta(proximoId, titulo);
      ProcurarUnico(pautas + [p], titulo.valor, |pautas|);
      pautas := pautas + [p];
      proximoId := proximoId + 1;
      r := Success(p);
    }
  }

  function Procurar(pautas: seq<Pauta>, titulo: string): (r: Option<Pauta>)
    ensures r.Some? ==> r.value in pautas && r.value.titulo.valor == titulo
    ensures r.None? <==> forall i | 0 <= i < |pautas| :: pautas[i].titulo.valor != titulo
  {
    if pautas == [] then None
    else if pautas[0].titulo.valor == titulo then Some(pautas[0])
    else Procurar(pautas[1..], titulo)
  }

  /** When exactly one pauta has the title, the search finds that one. */
  lemma {:induction false} ProcurarUnico(pautas: seq<Pauta>, titulo: string, k: nat)
    requires k < |pautas| && pautas[k].titulo.valor == titulo
    requires forall i | 0 <= i < |pautas| && i != k :: pautas[i].titulo.valor != titulo
    ensures Procurar(pautas, titulo) == Some(pautas[k])
    decreases |pautas|
  {
    if k > 0 {
      ProcurarUnico(pautas[1..], titulo, k - 1);
    }
  }
}
