/**
 * A `.env` file as the configuration scripts see it, modelled as its lines
 * (each with its line end, as `readlines` and `for line in f` give them).
 */
module DotEnv {

  /** Whether the file exists, and its lines. */
  class EnvFile {
    var present: bool
    var lines: seq<string>

    constructor (present: bool, lines: seq<string>)
      ensures this.present == present && this.lines == lines
    {
      this.present := present;
      this.lines := lines;
    }
  }
}
