/** The configuration values the modelled components read. */
module Settings {
  import opened Backoff
  import opened Common
  import opened Vouchers

  datatype Config = Config(
    lib: Library,
    directory: string,
    holder: Option<KeyId>,
    deleteAfterSuccess: bool,
    requireTrustedManufacturer: bool,
    pushMaxAttempts: int,
    workerMaxAttempts: int,
    pushRetryInterval: Time,
    workerRetryInterval: Time,
    round: Rounding)

  datatype VoucherDestination = VoucherDestination(url: string, token: string, source: string, mode: string)

  ghost predicate ValidConfig(cfg: Config) {
    Lawful(cfg.lib) && cfg.directory != ""
  }
}
