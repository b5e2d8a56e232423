/** The user records the proxy is configured with. */
module Config {
  import opened Common

  /** One authorised user and the number of downstream bytes it may use. */
  datatype UserConfig = UserConfig(username: string, password: string, quotaBytes: uint64)
}
