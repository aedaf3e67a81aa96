/** A signed-in identity, as bin/_smoke_identity.py seeds it and bin/_smoke_registry.py projects it. */
module IdentityTokens {
  import opened Wrappers

  const DEFAULT_CLIENT_ID: string := "smoke-cli"

  type Env = map<string, string>

  /** Instants are integers. */
  datatype Tokens = Tokens(
    slot: string, bearer: string, refresh: string, email: string, clientId: string, mintedAt: Option<int>)
}
