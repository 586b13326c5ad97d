/** The tokens that end a reply. */
module TerminalTokens {
  predicate Terminal(token: nat) {
    token == 248044 || token == 248046
  }
}
