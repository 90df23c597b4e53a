/** From C source text to planned register actions: the front end and the interpreter of
    crates/radio-core/src/realtek_table.rs composed. */
module RealtekSource {
  import opened RealtekCondition
  import opened RealtekTable
  import opened RealtekPrograms
  import opened RealtekPrinter
  import opened RealtekJoins
  import Text = RealtekText
  import opened Wrappers

  /** The parsed values as machine words; the remainder changes nothing, as no parsed value reaches it. */
  function Words(values: seq<nat>): seq<bv32> {
    seq(|values|, i requires 0 <= i < |values| => (values[i] % Text.U32_LIMIT) as bv32)
  }

  /** Every value the scanner accepts fits a 32-bit word. */
  lemma {:induction false} ScannedValuesFit(s: string)
    requires Text.Scan(s).Ok?
    ensures forall i | 0 <= i < |Text.Scan(s).value| :: Text.Scan(s).value[i] < Text.U32_LIMIT
    decreases |s|
  {
    if s != "" {
      if Text.StartsHex(s) {
        ScannedValuesFit(s[2 + |Text.DigitRun(s[2..], true)|..]);
      } else if Text.IsDigit(s[0]) {
        ScannedValuesFit(s[|Text.DigitRun(s, false)|..]);
      } else {
        ScannedValuesFit(s[1..]);
      }
    }
  }

  /** A structured program printed as a C array, with any comments and in any layout whose literals join
      well, above all where none run together, is planned for every adapter as its meaning there. */
  lemma PrintedProgramIsPlanned(
    kind: TableKind, env: ConditionEnv, program: seq<Item>,
    prefix: string, arrayName: string, middle: string, pieces: seq<Piece>, suffix: string)
    requires Declares(prefix, arrayName, middle, PrintAll(pieces), suffix)
    requires AllOk(pieces) && JoinsWell(pieces) && |Values(pieces)| % 2 == 0
    requires PairsOf(Words(Values(pieces))) == Flatten(program)
    requires forall k | 0 <= k < |program| :: WellFormed(program[k])
    ensures var parsed := Text.ParseU32Array(Declare(prefix, arrayName, middle, PrintAll(pieces), suffix), arrayName);
            && parsed == Ok(Values(pieces))
            && PlanOf(kind, Words(parsed.value), EnvCheck(env)).Ok?
            && PlanOf(kind, Words(parsed.value), EnvCheck(env)).value.actions == Meaning(kind, EnvCheck(env), 0, program)
  {
    DeclarationReadsBackIff(prefix, arrayName, middle, pieces, suffix);
    PlanIsMeaning(kind, Words(Values(pieces)), env, program);
  }
}
