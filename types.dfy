/** The two records the help parser produces (`@dataclass` records: value equality, no behaviour). */
module Types {

  /** A subcommand surfaced to agents; `description` defaults to the empty string. */
  datatype CommandInfo = CommandInfo(name: string, description: string := "")

  /** An option or flag; `flags` holds every spelling as printed, e.g. "-v, --verbose". */
  datatype OptionInfo = OptionInfo(flags: string, description: string := "")

  lemma {:induction false} CommandInfoDefault(name: string)
    ensures CommandInfo(name) == CommandInfo(name, "")
    ensures CommandInfo(name).name == name && CommandInfo(name).description == ""
  {
  }

  lemma {:induction false} OptionInfoDefault(flags: string)
    ensures OptionInfo(flags) == OptionInfo(flags, "")
    ensures OptionInfo(flags).flags == flags && OptionInfo(flags).description == ""
  {
  }

  /** Equality is field by field, as `@dataclass` generates it. */
  lemma {:induction false} CommandInfoEquality(a: CommandInfo, b: CommandInfo)
    ensures a == b <==> a.name == b.name && a.description == b.description
  {
  }

  lemma {:induction false} OptionInfoEquality(a: OptionInfo, b: OptionInfo)
    ensures a == b <==> a.flags == b.flags && a.description == b.description
  {
  }
}
