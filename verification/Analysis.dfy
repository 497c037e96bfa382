// The transcendental functions the oracles take from the platform library.
// Only the laws listed in Lawful are ever used.
module Analysis {

  datatype Functions = Functions(exp: real -> real, ln: real -> real, sqrt: real -> real) {

    ghost predicate Lawful() {
      && (forall x: real :: exp(x) > 0.0)
      && (forall x: real :: x < 0.0 ==> exp(x) < 1.0)
      && (forall x: real :: x > 1.0 ==> ln(x) > 0.0)
      && (forall x: real :: x > 0.0 ==> sqrt(x) > 0.0 && sqrt(x) * sqrt(x) == x)
    }

    function Silu(x: real): real
      requires Lawful()
    {
      x / (1.0 + exp(-x))
    }
  }
}
