/** Chat messages as the gate receives them, the schema check that admits
    them (`messagesSchema.safeParse`), and the two ways the gate picks
    messages out of the history: the user messages in order, and the latest
    user message. */
module Messages {

  datatype Option<T> = None | Some(value: T)

  datatype Role = User | Assistant | System

  /** `createdAt` of an admitted message, as the history analysis sees it
      after `new Date(...)`. */
  datatype Stamp =
    | Absent          // no `createdAt`
    | EmptyText       // the string '', which `filter(Boolean)` drops
    | At(ms: int)     // a valid Date, or a string that `new Date` parses
    | Unparsable      // a non-empty string `new Date` cannot parse: an Invalid Date

  datatype Message = Message(role: Role, content: string, stamp: Stamp)

  // ----- messages before the schema check -----

  /** The `id` field: absent, a string, or a value of another type. */
  datatype RawId = NoId | IdText(text: string) | IdOther

  /** The `createdAt` field.  Date parsing is a parameter of the model: a
      Date object carries its time (None for an Invalid Date) and a string
      carries what `new Date(text)` would make of it. */
  datatype RawStamp =
    | NoStamp
    | DateObject(time: Option<int>)
    | DateText(text: string, parsed: Option<int>)
    | OtherStamp

  /** The `content` field: a string, missing (or `undefined` or `null`), or
      a value of another type.  The schema admits only a string; the logging
      statement of `enhancedSecurityCheck` fails only on a missing or `null`
      one, both `NoContent`; any other value has a `length` property or
      yields `undefined` for it. */
  datatype RawContent = ContentText(text: string) | NoContent | ContentOther

  /** One element of the request's message array.  `role` is None when the
      field is missing or not a string. */
  datatype RawMessage = RawMessage(role: Option<string>, content: RawContent, id: RawId, createdAt: RawStamp)

  /** `z.enum(['user', 'assistant', 'system'])` */
  function ParseRole(role: Option<string>): (r: Option<Role>)
    ensures r == Some(User) <==> role == Some("user")
    ensures r == Some(Assistant) <==> role == Some("assistant")
    ensures r == Some(System) <==> role == Some("system")
  {
    match role
    case Some(text) =>
      if text == "user" then Some(User)
      else if text == "assistant" then Some(Assistant)
      else if text == "system" then Some(System)
      else None
    case None => None
  }

  /** `z.union([z.date(), z.string()]).optional()`: an Invalid Date is
      rejected by `z.date()`; any string is admitted. */
  function ParseStamp(stamp: RawStamp): (r: Option<Stamp>)
    ensures r.None? <==> stamp.OtherStamp? || stamp == DateObject(None)
    ensures r == Some(EmptyText) <==> stamp.DateText? && stamp.text == ""
    ensures r == Some(Unparsable) <==> stamp.DateText? && stamp.text != "" && stamp.parsed.None?
  {
    match stamp
    case NoStamp => Some(Absent)
    case DateObject(time) => if time.Some? then Some(At(time.value)) else None
    case DateText(text, parsed) =>
      if text == "" then Some(EmptyText)
      else if parsed.Some? then Some(At(parsed.value))
      else Some(Unparsable)
    case OtherStamp => None
  }

  /** `messageSchema.safeParse(m)` */
  function ParseMessage(m: RawMessage): (r: Option<Message>)
    ensures r.Some? <==>
      ParseRole(m.role).Some? && m.content.ContentText? && !m.id.IdOther? && ParseStamp(m.createdAt).Some?
    ensures r.Some? ==> r.value.content == m.content.text && Some(r.value.role) == ParseRole(m.role)
  {
    var role := ParseRole(m.role);
    var stamp := ParseStamp(m.createdAt);
    if role.Some? && m.content.ContentText? && !m.id.IdOther? && stamp.Some? then
      Some(Message(role.value, m.content.text, stamp.value))
    else
      None
  }

  /** `messagesSchema.safeParse(messages)`: every element must pass. */
  function Validate(raw: seq<RawMessage>): (r: Option<seq<Message>>)
    ensures r.Some? <==> forall k | 0 <= k < |raw| :: ParseMessage(raw[k]).Some?
    ensures r.Some? ==> |r.value| == |raw|
    ensures r.Some? ==> forall k | 0 <= k < |raw| :: Some(r.value[k]) == ParseMessage(raw[k])
  {
    if raw == [] then Some([])
    else
      var head := ParseMessage(raw[0]);
      var tail := Validate(raw[1..]);
      if head.Some? && tail.Some? then
        assert forall k | 1 <= k < |raw| :: raw[1..][k - 1] == raw[k];
        Some([head.value] + tail.value)
      else
        assert head.None? ==> !ParseMessage(raw[0]).Some?;
        assert tail.None? ==> exists k | 1 <= k < |raw| :: ParseMessage(raw[k]).None? by {
          if tail.None? {
            var k :| 0 <= k < |raw[1..]| && ParseMessage(raw[1..][k]).None?;
            assert raw[1..][k] == raw[k + 1];
          }
        }
        None
  }

  // ----- selecting messages -----

  /** `messages.filter((m) => m.role === 'user')` */
  function UserMessages(ms: seq<Message>): (users: seq<Message>)
    ensures |users| <= |ms|
    ensures forall k | 0 <= k < |users| :: users[k].role == User && users[k] in ms
    ensures forall m :: multiset(users)[m] == if m.role == User then multiset(ms)[m] else 0
    decreases |ms|
  {
    if ms == [] then []
    else
      var init, last := ms[..|ms| - 1], ms[|ms| - 1];
      assert ms == init + [last];
      var rest := UserMessages(init);
      if last.role == User then rest + [last] else rest
  }

  /** `[...messages].reverse().find((m) => m.role === 'user')`: the search
      runs from the end of the history. */
  function LatestUser(ms: seq<Message>): (r: Option<Message>)
    decreases |ms|
  {
    if ms == [] then None
    else if ms[|ms| - 1].role == User then Some(ms[|ms| - 1])
    else LatestUser(ms[..|ms| - 1])
  }

  /** The backward search finds the last of the user messages, and nothing
      when there is none. */
  lemma {:induction false} LatestIsLastUser(ms: seq<Message>)
    ensures LatestUser(ms).None? <==> UserMessages(ms) == []
    ensures LatestUser(ms).Some? ==>
      LatestUser(ms).value == UserMessages(ms)[|UserMessages(ms)| - 1]
    decreases |ms|
  {
    if ms != [] && ms[|ms| - 1].role != User {
      LatestIsLastUser(ms[..|ms| - 1]);
    }
  }

  /** Filtering is a homomorphism: the user messages of a concatenation are
      the user messages of each part. */
  lemma {:induction false} UserMessagesAppend(a: seq<Message>, b: seq<Message>)
    ensures UserMessages(a + b) == UserMessages(a) + UserMessages(b)
    decreases |b|
  {
    if b == [] {
      assert a + b == a;
    } else {
      assert (a + b)[..|a + b| - 1] == a + b[..|b| - 1];
      UserMessagesAppend(a, b[..|b| - 1]);
    }
  }

  /** A single message is kept exactly when it is a user message; with
      UserMessagesAppend this fixes the order of the result. */
  lemma UserMessagesSingle(m: Message)
    ensures UserMessages([m]) == if m.role == User then [m] else []
  {
    assert [m][..0] == [];
  }

  /** Filtering twice changes nothing: every selected message is a user
      message. */
  lemma {:induction false} UserMessagesIdempotent(ms: seq<Message>)
    ensures UserMessages(UserMessages(ms)) == UserMessages(ms)
    decreases |ms|
  {
    if ms != [] {
      var init := ms[..|ms| - 1];
      UserMessagesIdempotent(init);
      if ms[|ms| - 1].role == User {
        UserMessagesAppend(UserMessages(init), [ms[|ms| - 1]]);
        assert [ms[|ms| - 1]][..0] == [];
      }
    }
  }
}
