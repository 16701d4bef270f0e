/** The listen address the server derives from its `PORT` setting. The value of
    the environment variable is a parameter; an unset variable reads as "". */
module Env {

  const DefaultAddress := ":8080"

  /** `readEnv`: an empty setting means ":8080", and a missing leading ':' is added. */
  function ReadEnv(port: string): (addr: string)
    ensures |addr| > 0 && addr[0] == ':'
    ensures port == "" ==> addr == DefaultAddress
    ensures port != "" && port[0] == ':' ==> addr == port
    ensures port != "" && port[0] != ':' ==> addr == ":" + port
    ensures port != "" ==> |addr| <= |port| + 1 && addr[|addr| - |port|..] == port
  {
    var port := if port == "" then DefaultAddress else port;
    if !(":" <= port) then ":" + port else port
  }

  /** Feeding the address back in as the setting yields the same address. */
  lemma ReadEnvIdempotent(port: string)
    ensures ReadEnv(ReadEnv(port)) == ReadEnv(port)
  {
  }

  /** The text after the ':' is the setting with at most one leading ':' removed,
      or "8080" when the setting is empty. In particular a setting of ":" gives
      ":" with no port number at all. */
  lemma ReadEnvPortNumber(port: string)
    ensures ReadEnv(port)[1..] ==
              if port == "" then "8080" else if port[0] == ':' then port[1..] else port
    ensures ReadEnv(":") == ":"
  {
  }
}
