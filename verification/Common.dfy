/** What several components share. */
module Common {
  datatype Option<+T> = None | Some(value: T)

  /** `str.lower()`, as far as a comparison with ASCII text can tell: besides A to Z, the
      Kelvin sign is the only character whose lower-case form is ASCII. Every other
      character keeps a lower-case form outside ASCII and is left alone here. */
  function LowerChar(c: char): char {
    if 'A' <= c <= 'Z' then c - 'A' + 'a'
    else if c == '\U{212A}' then 'k'
    else c
  }

  function Lower(s: string): string {
    seq(|s|, i requires 0 <= i < |s| => LowerChar(s[i]))
  }
}
