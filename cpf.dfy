/** Cpf: the voter identifier, exactly eleven ASCII digits. */
module Cpfs {
  import opened Wrappers
  import opened Erros
  import opened Texto

  const DIGITOS: int := 11

  /** The pattern \d{11} matched against the whole string (String.matches). */
  predicate OnzeDigitos(numero: string): (b: bool)
    ensures b ==> !IsBlank(numero)
  {
    |numero| == DIGITOS && forall i | 0 <= i < |numero| :: IsDigit(numero[i])
  }

  datatype Cpf = Cpf(numero: string)

  /** Only the validating constructor builds a Cpf. */
  type CpfValido = c: Cpf | OnzeDigitos(c.numero) witness Cpf("00000000000")

  /** new Cpf(numero): blank check first, then the digit pattern; the number is kept verbatim. */
  function Novo(numero: Option<string>): (r: Result<CpfValido, Erro>)
    ensures r.Success? <==> numero.Some? && OnzeDigitos(numero.value)
    ensures r.Success? ==> r.value.numero == numero.value && |r.value.numero| == DIGITOS
    ensures numero.None? || IsBlank(numero.value) ==> r == Failure(ArgumentoInvalido(CpfNuloOuVazio))
    ensures numero.Some? && !IsBlank(numero.value) && !OnzeDigitos(numero.value) ==>
      r == Failure(ArgumentoInvalido(CpfSemOnzeDigitos))
  {
    if numero.None? then Failure(ArgumentoInvalido(CpfNuloOuVazio))
    else if IsBlank(numero.value) then Failure(ArgumentoInvalido(CpfNuloOuVazio))
      else if !OnzeDigitos(numero.value) then Failure(ArgumentoInvalido(CpfSemOnzeDigitos))
      else Success(Cpf(numero.value))
  }

  /** A blank string fails with the "nulo ou vazio" error even though it also fails the pattern. */
  lemma BrancoRejeitadoAntesDoPadrao(numero: string)
    requires IsBlank(numero)
    ensures !OnzeDigitos(numero)
    ensures Novo(Some(numero)) == Failure(ArgumentoInvalido(CpfNuloOuVazio))
  {
  }

  /** Cpf.equals: equal iff the numbers are equal. */
  function Iguais(a: Cpf, b: Cpf): (r: bool)
    ensures r <==> a == b
  {
    a.numero == b.numero
  }
}
