// The shared silence counter of the logger.

module SilenceLog {
  datatype Message = Silencing | Unsilenced

  /** What one rsLogSilence call makes of the counter: the sum, clamped at zero. */
  function NewCounter(counter: nat, delta: int): (n: nat)
    ensures n == 0 || n == counter + delta
    ensures counter + delta <= n
  {
    if counter + delta <= 0 then 0 else counter + delta
  }

  /** The message of a call, if it has one: only when the counter leaves or reaches zero. */
  function MessageOf(counter: nat, delta: int): seq<Message> {
    if counter + delta <= 0 then (if counter > 0 then [Unsilenced] else [])
    else if counter == 0 then [Silencing] else []
  }

  /** The two messages strictly alternate, starting with Silencing. */
  ghost predicate Alternating(messages: seq<Message>) {
    forall i :: 0 <= i < |messages| ==> messages[i] == if i % 2 == 0 then Silencing else Unsilenced
  }

  /** Level and messages agree with the counter. */
  ghost predicate Consistent(counter: nat, fatal: bool, messages: seq<Message>) {
    && Alternating(messages)
    && (fatal <==> counter > 0)
    && (fatal <==> |messages| % 2 == 1)
  }

  class Logger {
    var silenceCounter: nat
    var fatal: bool // the log level is AV_LOG_FATAL
    ghost var messages: seq<Message>

    constructor ()
      ensures silenceCounter == 0 && !fatal && messages == []
    {
      silenceCounter := 0;
      fatal := false;
      messages := [];
    }

    /** rsLogSilence between locking and unlocking its mutex. */
    method Silence(delta: int)
      requires Consistent(silenceCounter, fatal, messages)
      modifies this
      ensures silenceCounter == NewCounter(old(silenceCounter), delta)
      ensures messages == old(messages) + MessageOf(old(silenceCounter), delta)
      ensures Consistent(silenceCounter, fatal, messages)
    {
      var silence := delta + silenceCounter;
      if silence <= 0 {
        silence := 0;
        if silenceCounter > 0 {
          fatal := false;
          messages := messages + [Unsilenced];
        }
      } else if silenceCounter == 0 {
        messages := messages + [Silencing];
        fatal := true;
      }
      silenceCounter := silence;
    }
  }
}
