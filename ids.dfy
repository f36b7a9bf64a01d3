/**
 * The fresh-id oracle standing in for `nanoid()` and `uuid()`: a service
 * counts the ids it has issued, and the `n`-th id is `n` characters long,
 * so it differs from every id issued before it.
 */
module FreshIds {

  function IssuedId(n: nat): (id: string)
    ensures |id| == n
  {
    seq(n, _ => 'x')
  }
}
