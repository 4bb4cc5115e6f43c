/**
 * The crate's error type (src/error.rs) and its `Result` alias.
 *
 * `AwsCli` and `AwsCliOutput` are used by the CLI-backed calls but are not
 * declared in the shown revision of the error file; they are added here:
 * `AwsCliOutput` carries the stderr of an `aws` process that exited with a
 * non-zero status, `AwsCli` any other failure to run it or to decode its output.
 */
module Errors {

  datatype Error =
    | MissingCache
    | ExpiredCache
    | CacheParse(path: string)
    | AwsSdk(sdkMessage: string)
    | Tui(tuiMessage: string)
    | NoSelection
    | MissingHome
    | MissingStartUrl
    | MissingRegion
    | MissingAccount
    | OpenBrowser(browserMessage: string)
    | Config(configMessage: string)
    | AwsCli(cliMessage: string)
    | AwsCliOutput(stderr: string)

  datatype Result<+T> = Ok(value: T) | Err(error: Error)
}
