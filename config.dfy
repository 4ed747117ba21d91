/** The two configuration constants the core depends on (config/config.py). */
module Config {

  /** LinkedIn's maximum post length, in characters. */
  const MaxPostLength: nat := 3000

  /** Time of day used when a daily post is scheduled without one (the environment's fallback value). */
  const DefaultPostTime: string := "09:00"

}
