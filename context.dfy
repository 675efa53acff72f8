/** The task context bridge: `taskContextPayload` (essh/lualib.go), the one
    method a script callback can call on its task-context handle. It reads
    or writes the context's single payload string. */
module Context {
  import opened Results
  import opened Lua

  /** One call of `payload` on a context holding `payload`, with the
      arguments given after the handle: the values it returns (None when it
      returns nothing) or the error it raises, and the payload afterwards. */
  function PayloadStep(payload: string, args: seq<Value>): (r: (Result<Option<string>, Error>, string))
    ensures |args| == 1 && CheckString(args[0]).Some? ==> r == (Ok(None), CheckString(args[0]).value)
    ensures |args| == 1 && CheckString(args[0]).None? ==> r == (Err(StringExpected(2)), payload)
    ensures |args| != 1 ==> r == (Ok(Some(payload)), payload)
  {
    if |args| == 1 then
      match CheckString(args[0])
      case Some(s) => (Ok(None), s)
      case None => (Err(StringExpected(2)), payload)
    else
      (Ok(Some(payload)), payload)
  }

  /** A read returns what the last successful write stored. */
  lemma ReadAfterWrite(payload: string, v: Value)
    requires v.Str? || v.Num?
    ensures var (_, stored) := PayloadStep(payload, [v]);
      PayloadStep(stored, []) == (Ok(Some(CheckString(v).value)), CheckString(v).value)
    ensures v.Str? ==> PayloadStep(PayloadStep(payload, [v]).1, []).0 == Ok(Some(v.s))
  {
  }

  /** Reading changes nothing; a rejected write changes nothing either. */
  lemma OnlyWritesChangePayload(payload: string, args: seq<Value>)
    ensures PayloadStep(payload, args).1 != payload ==>
      |args| == 1 && CheckString(args[0]) == Some(PayloadStep(payload, args).1)
  {
  }

  /** The execution-time state exposed to callbacks. */
  class TaskContext {
    var payload: string

    constructor (payload: string)
      ensures this.payload == payload
    {
      this.payload := payload;
    }

    /** `taskContextPayload`: exactly one argument writes the payload (a
        number is stored in its printed form) and returns nothing; any other
        number of arguments reads it. */
    method Payload(args: seq<Value>) returns (r: Result<Option<string>, Error>)
      modifies this
      ensures (r, payload) == PayloadStep(old(payload), args)
    {
      if |args| == 1 {
        match CheckString(args[0]) {
          case Some(s) =>
            payload := s;
            return Ok(None);
          case None =>
            return Err(StringExpected(2));
        }
      }
      return Ok(Some(payload));
    }
  }

  /** A callback that writes a string and reads it back sees that string. */
  method WriteThenRead(ctx: TaskContext, s: string) returns (r: Result<Option<string>, Error>)
    modifies ctx
    ensures r == Ok(Some(s)) && ctx.payload == s
  {
    var w := ctx.Payload([Str(s)]);
    r := ctx.Payload([]);
  }
}
