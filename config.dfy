/** `HumanizationConfig`: the read-only settings every operation consults. */
module Config {

  datatype HumanizationConfig = HumanizationConfig(
    fast: bool,                  // shorter paths and pauses
    humanize: bool,              // jitter, hesitations and pauses after spaces
    charactersPerMinute: real,   // typing rate
    backspaceCpm: real,          // deleting rate
    timeout: real,               // milliseconds allowed for visibility and focus checks
    stealthMode: bool)

  /** The dataclass defaults. */
  function DefaultConfig(): (c: HumanizationConfig)
    ensures c.fast && c.humanize && c.stealthMode
    ensures c.charactersPerMinute == 600.0 && c.backspaceCpm == 1200.0 && c.timeout == 5000.0
  {
    HumanizationConfig(true, true, 600.0, 1200.0, 5000.0, true)
  }
}
