/** The leaf checks the lessons chain onto string fields, each returning the
    messages of its failing rule (at most its own message). */
module Rules {
  import opened ErrorTree
  import opened Inputs

  /** `.min(n, { message })` on a string: fewer than `n` characters fail. */
  function MinLength(s: string, n: nat, msg: Message): (msgs: set<Message>)
    ensures msgs <= {msg}
    ensures msgs == {} <==> |s| >= n
  {
    if |s| < n then {msg} else {}
  }

  /** `.max(n, { message })` on a string: more than `n` characters fail. */
  function MaxLength(s: string, n: nat, msg: Message): (msgs: set<Message>)
    ensures msgs <= {msg}
    ensures msgs == {} <==> |s| <= n
  {
    if |s| > n then {msg} else {}
  }

  /** `.max(n, { message }).optional()`: an absent value skips the check. */
  function OptionalMaxLength(s: Option<string>, n: nat, msg: Message): (msgs: set<Message>)
    ensures msgs <= {msg}
    ensures msgs == {} <==> s.None? || |s.value| <= n
  {
    match s
    case None => {}
    case Some(text) => MaxLength(text, n, msg)
  }

  /** `.email({ message })`; the address grammar is the library's and is
      given as the predicate `isEmail`. */
  function Email(s: string, isEmail: string -> bool, msg: Message): (msgs: set<Message>)
    ensures msgs <= {msg}
    ensures msgs == {} <==> isEmail(s)
  {
    if isEmail(s) then {} else {msg}
  }
}
