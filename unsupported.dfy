/**
 * The desktop integration on any other operating system
 * (src/desktop/unsupported.rs): both actions refuse with one fixed error.
 */
module Unsupported {
  import opened Wrappers
  import opened Errors

  const UnsupportedMessage: string := "post-auth automation is not supported on this operating system"

  /** `unsupported`: the refusal both actions return. */
  function Unsupported(): (r: Result<()>)
    ensures r.Err? && r.error.Config? && r.error.configMessage == UnsupportedMessage
  {
    Err(Config(UnsupportedMessage))
  }
}
