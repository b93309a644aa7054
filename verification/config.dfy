/** The configuration records the analyzer consumes (`internal/config`).
    Loading and YAML decoding are not modelled; only the record shapes are. */
module Config {

  /** One signature: a named substring pattern with a category label. */
  datatype Rule = Rule(name: string, pattern: string, ruleType: string)

  /** The parsed configuration: the targets to scan, in order, and the rules. */
  datatype Config = Config(files: seq<string>, rules: seq<Rule>)
}
