/** The gated delta-rule recurrence, one head and one state column at a time.
    Column j of a head's state only ever meets column j of v, so the whole recurrence is S
    independent copies of a recurrence on a vector of length S. */
module DeltaSpec {
  import opened Sums

  /** One head's token streams: keys, scaled queries and values by token, log-decay and beta. */
  datatype Head = Head(S: nat, exp: real -> real,
                       k: int -> int -> real, qs: int -> int -> real, v: int -> int -> real,
                       g: int -> real, b: int -> real)

  /** The gated prediction error of token t for column j, given the column before the token. */
  function Delta(x: Head, j: int, col: int -> real, t: int): real {
    (x.v(t)(j) - Dot(0, x.S, Scaled(x.exp(x.g(t)), col), x.k(t))) * x.b(t)
  }

  /** One token: decay, then the rank-1 correction. */
  function Step(x: Head, j: int, col: int -> real, t: int): int -> real {
    Blend(x.exp(x.g(t)), col, Delta(x, j, col, t), x.k(t))
  }

  /** The column after n tokens starting at token c0 from column s0. */
  function Col(x: Head, j: int, s0: int -> real, c0: int, n: nat): int -> real {
    if n == 0 then s0 else Step(x, j, Col(x, j, s0, c0, n - 1), c0 + n - 1)
  }

  /** Output coordinate j of the n-th token after c0, read from the updated state. */
  function Read(x: Head, j: int, s0: int -> real, c0: int, n: nat): real {
    Dot(0, x.S, Col(x, j, s0, c0, n + 1), x.qs(c0 + n))
  }

  /** Running n then m tokens is running n+m. */
  lemma {:induction false} ColCompose(x: Head, j: int, s0: int -> real, c0: int, n: nat, m: nat)
    ensures Col(x, j, Col(x, j, s0, c0, n), c0 + n, m) == Col(x, j, s0, c0, n + m)
  {
    if m > 0 { ColCompose(x, j, s0, c0, n, m - 1); }
  }
}
