/** Interface tokens: the JavaScript `symbol` values that extension points and
    message routing are keyed by. Only equality is ever used on them. */
module Tokens {

  type Token(==)
}
