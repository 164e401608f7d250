/**
 * The hand-off to the downstream handler (`process_message`). The source
 * starts a detached thread that runs `python3 command.py` with four
 * arguments; the model only produces the job record that describes that
 * run, with the arguments in the order the command line gives them.
 */
module Dispatch {

  /** One run of the downstream handler: sender, content (message text or
      picture URL), channel and message-type code (0 text, 1 image). */
  datatype DispatchJob = DispatchJob(sender: string, content: string, channel: int, msgType: int)
  {
    /** The four arguments the handler is meant to receive, as Python's
        f-string renders them (`str` of each integer). */
    function Argv(): seq<string>
    {
      [sender, content, IntToString(channel), IntToString(msgType)]
    }
  }

  /** `process_message(name, content, channel, msg_type)`. */
  function ProcessMessage(name: string, content: string, channel: int, msgType: int): (job: DispatchJob)
    ensures job.Argv() == [name, content, IntToString(channel), IntToString(msgType)]
    ensures job.channel == channel && job.msgType == msgType
  {
    DispatchJob(name, content, channel, msgType)
  }

  function DigitChar(d: nat): char
    requires d < 10
  {
    (48 + d) as char
  }

  predicate IsDigitChar(c: char)
  {
    48 <= c as int <= 57
  }

  /** Decimal digits of `n`, most significant first, no leading zero. */
  function Digits(n: nat): (s: string)
    ensures |s| >= 1 && (|s| > 1 ==> s[0] != '0')
    ensures s[0] == '0' <==> n == 0
    ensures forall i :: 0 <= i < |s| ==> IsDigitChar(s[i])
    decreases n
  {
    if n < 10 then [DigitChar(n)] else Digits(n / 10) + [DigitChar(n % 10)]
  }

  /** Value of a string of decimal digits: the inverse of Digits. */
  function DigitsValue(s: string): nat
    requires forall i :: 0 <= i < |s| ==> IsDigitChar(s[i])
  {
    if s == [] then 0
    else
      assert IsDigitChar(s[|s| - 1]);
      DigitsValue(s[..|s| - 1]) * 10 + (s[|s| - 1] as int - 48)
  }

  lemma {:induction false} DigitsRoundTrip(n: nat)
    ensures DigitsValue(Digits(n)) == n
    decreases n
  {
    if n >= 10 {
      var s := Digits(n);
      assert s[..|s| - 1] == Digits(n / 10);
      DigitsRoundTrip(n / 10);
    }
  }

  /** Python's `str(n)` for an int: a "-" exactly for a negative number,
      then decimal digits. */
  function IntToString(n: int): (s: string)
    ensures |s| >= 1 && (s[0] == '-' <==> n < 0)
    ensures forall i :: (if n < 0 then 1 else 0) <= i < |s| ==> IsDigitChar(s[i])
  {
    if n < 0 then "-" + Digits(-n) else Digits(n)
  }

  /** The shape of the strings `str` produces for an int: an optional "-",
      then at least one decimal digit, with no leading zero and no "-0". */
  predicate IsIntString(s: string)
  {
    var start := if |s| > 0 && s[0] == '-' then 1 else 0;
    && |s| > start
    && (forall i :: start <= i < |s| ==> IsDigitChar(s[i]))
    && (s[start] == '0' ==> start == 0 && |s| == 1)
  }

  /** The value Python's `int(s)` reads from such a string. */
  function IntValue(s: string): int
    requires IsIntString(s)
  {
    if s[0] == '-' then
      assert forall i :: 0 <= i < |s[1..]| ==> s[1..][i] == s[i + 1];
      -(DigitsValue(s[1..]) as int)
    else DigitsValue(s)
  }

  /** `int(str(n)) == n` for every int. */
  lemma IntToStringRoundTrip(n: int)
    ensures IsIntString(IntToString(n)) && IntValue(IntToString(n)) == n
  {
    if n < 0 {
      DigitsRoundTrip(-n);
      assert IntToString(n)[1..] == Digits(-n);
    } else {
      DigitsRoundTrip(n);
    }
  }

  /** The codes the source passes: channel 0, type 0 or 1. */
  lemma SmallCodes()
    ensures IntToString(0) == "0" && IntToString(1) == "1"
  {
  }
}
