/** TituloPauta: the business identifier of a pauta, validated at construction. */
module Titulos {
  import opened Wrappers
  import opened Erros
  import opened Texto

  /** Column length of titulo_pauta and the bound checked by validar. */
  const TAMANHO_MAXIMO: int := 500

  predicate ValorValido(valor: string) {
    !IsBlank(valor) && |valor| <= TAMANHO_MAXIMO
  }

  datatype TituloPauta = TituloPauta(valor: string)

  /** Only the validating constructor builds a TituloPauta. */
  type TituloValido = t: TituloPauta | ValorValido(t.valor) witness TituloPauta("P")

  /** new TituloPauta(valor): blank check first, then the length bound; the value is kept verbatim. */
  function Novo(valor: Option<string>): (r: Result<TituloValido, Erro>)
    ensures r.Success? <==> valor.Some? && !IsBlank(valor.value) && |valor.value| <= TAMANHO_MAXIMO
    ensures r.Success? ==> r.value.valor == valor.value
    ensures valor.None? || IsBlank(valor.value) ==> r == Failure(ArgumentoInvalido(TituloNuloOuVazio))
    ensures valor.Some? && !IsBlank(valor.value) && |valor.value| > TAMANHO_MAXIMO ==>
      r == Failure(ArgumentoInvalido(TituloMuitoLongo))
  {
    if valor.None? || IsBlank(valor.value) then Failure(ArgumentoInvalido(TituloNuloOuVazio))
    else if |valor.value| > TAMANHO_MAXIMO then Failure(ArgumentoInvalido(TituloMuitoLongo))
    else Success(TituloPauta(valor.value))
  }

  /** The bound is inclusive: any 500-character title with a visible character is accepted. */
  lemma LimiteInclusivo(valor: string, k: nat)
    requires |valor| == TAMANHO_MAXIMO && k < |valor| && !IsWhitespace(valor[k])
    ensures Novo(Some(valor)) == Success(TituloPauta(valor))
  {
    assert !IsBlank(valor);
  }

  /** One character more is rejected whatever it contains. */
  lemma AcimaDoLimiteRejeitado(valor: string)
    requires |valor| == TAMANHO_MAXIMO + 1
    ensures Novo(Some(valor)).Failure?
  {
  }

  /** TituloPauta.equals: equal iff the values are equal. */
  function Iguais(a: TituloPauta, b: TituloPauta): (r: bool)
    ensures r <==> a == b
  {
    a.valor == b.valor
  }
}
