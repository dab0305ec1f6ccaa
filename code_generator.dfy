/** Attendance codes (chibi/utils/code_generator.py): `length` characters
    drawn from an alphabet without the look-alikes I, O, 0 and 1, redrawn
    until the code differs from the previous one. The secure random source
    is an oracle: `draws(k)` is the position in the alphabet picked by the
    k-th `secrets.choice`. */
module CodeGenerator {
  import opened Wrappers

  const CharSet := "ABCDEFGHJKLMNPQRSTUVWXYZ23456789"

  /** A position in `CharSet`. */
  type Pick = i: int | 0 <= i < 32

  /** A character a code may contain: an upper-case letter other than I
      and O, or a digit other than 0 and 1. */
  predicate IsCodeChar(c: char) {
    ('A' <= c <= 'Z' && c != 'I' && c != 'O') || ('2' <= c <= '9')
  }

  /** Every character of the alphabet is a code character. */
  lemma CharSetChars()
    ensures |CharSet| == 32
    ensures forall c :: c in CharSet ==> IsCodeChar(c)
  {
    forall i | 0 <= i < |CharSet| ensures IsCodeChar(CharSet[i]) {
    }
  }

  /** Hence the look-alikes I, O, 0 and 1 are not in the alphabet. */
  lemma CharSetUnambiguous()
    ensures 'I' !in CharSet && 'O' !in CharSet && '0' !in CharSet && '1' !in CharSet
  {
    CharSetChars();
  }

  /** The code built from the draws numbered `start` to `start + length - 1`. */
  function CodeFrom(draws: nat -> Pick, start: nat, length: nat): (code: string)
    ensures |code| == length
  {
    if length == 0 then [] else CodeFrom(draws, start, length - 1) + [CharSet[draws(start + length - 1)]]
  }

  /** The `i`-th character is the alphabet's character at the `i`-th draw. */
  lemma {:induction false} CodeFromAt(draws: nat -> Pick, start: nat, length: nat, i: nat)
    requires i < length
    ensures CodeFrom(draws, start, length)[i] == CharSet[draws(start + i)]
  {
    if i < length - 1 {
      CodeFromAt(draws, start, length - 1, i);
    }
  }

  /** The candidate code of the `round`-th pass of the retry loop. */
  function RoundCode(draws: nat -> Pick, length: nat, round: nat): (code: string)
    ensures |code| == length
  {
    CodeFrom(draws, RoundStart(length, round), length)
  }

  /** Number of draws made before the `round`-th pass. */
  function RoundStart(length: nat, round: nat): nat {
    if round == 0 then 0 else RoundStart(length, round - 1) + length
  }

  /** The random source eventually yields a code other than `previous`:
      without this the retry loop never ends (as with length 0 and a
      previous code of ""). */
  ghost predicate EventuallyDiffers(draws: nat -> Pick, length: nat, previous: Option<string>) {
    exists round: nat :: Some(RoundCode(draws, length, round)) != previous
  }

  /** `generate_code`: the first candidate that differs from `previous`. */
  method GenerateCode(length: nat, previous: Option<string>, draws: nat -> Pick) returns (code: string)
    requires EventuallyDiffers(draws, length, previous)
    ensures |code| == length
    ensures forall i :: 0 <= i < |code| ==> code[i] in CharSet
    ensures Some(code) != previous
    ensures exists round: nat :: (code == RoundCode(draws, length, round)
      && forall earlier: nat :: earlier < round ==> Some(RoundCode(draws, length, earlier)) == previous)
  {
    ghost var last: nat :| Some(RoundCode(draws, length, last)) != previous;
    var round: nat := 0;
    code := DrawCode(draws, 0, length);
    while Some(code) == previous
      invariant round <= last
      invariant code == RoundCode(draws, length, round)
      invariant forall earlier: nat :: earlier < round ==> Some(RoundCode(draws, length, earlier)) == previous
      decreases last - round
    {
      round := round + 1;
      code := DrawCode(draws, RoundStart(length, round), length);
    }
    CodeFromInCharSet(draws, RoundStart(length, round), length);
  }

  /** Every character of a candidate comes from the alphabet. */
  lemma CodeFromInCharSet(draws: nat -> Pick, start: nat, length: nat)
    ensures forall i :: 0 <= i < length ==> CodeFrom(draws, start, length)[i] in CharSet
  {
    forall i | 0 <= i < length
      ensures CodeFrom(draws, start, length)[i] in CharSet
    {
      CodeFromAt(draws, start, length, i);
    }
  }

  /** `"".join(secrets.choice(CHAR_SET) for _ in range(length))`, one draw
      per character. */
  method DrawCode(draws: nat -> Pick, start: nat, length: nat) returns (code: string)
    ensures code == CodeFrom(draws, start, length)
  {
    code := "";
    for i := 0 to length
      invariant code == CodeFrom(draws, start, i)
    {
      code := code + [CharSet[draws(start + i)]];
    }
  }

  /** Without a previous code, or with one of another length, the first
      candidate is returned. */
  lemma FirstRoundWhenNothingToAvoid(draws: nat -> Pick, length: nat, previous: Option<string>)
    requires previous.None? || |previous.value| != length
    ensures EventuallyDiffers(draws, length, previous)
    ensures Some(RoundCode(draws, length, 0)) != previous
  {
    assert Some(RoundCode(draws, length, 0)) != previous;
  }
}
