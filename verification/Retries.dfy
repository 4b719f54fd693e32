/**
 * Sending with retries: what is to be posted is retained before it is posted, and every later
 * invocation with the same state path posts exactly that, or nothing.
 */
module Retries {
  import opened Options
  import opened Journals

  type Text = string

  /** The state file of one path, and every request ever posted from it. */
  datatype Box<S, P> = Box(state: Option<S>, posted: seq<P>)

  /** Retain a fresh state if there is none, then post what the retained state allows. */
  function Submission<S, P>(b: Box<S, P>, first: Option<S>, allows: S -> Option<P>): seq<Box<S, P>> {
    var state := if b.state.Some? then b.state else first;
    if state.None? then []
    else
      var b1 := b.(state := state);
      (if b.state.Some? then [] else [b1])
      + (if allows(state.value).Some? then [b1.(posted := b1.posted + [allows(state.value).value])] else [])
  }

  /** The state is written once, and everything posted is the retained request. */
  ghost predicate Sound<S, P>(b: Box<S, P>, c: Box<S, P>, requestOf: S -> Option<P>) {
    && (b.state.Some? ==> c.state == b.state)
    && b.posted <= c.posted
    && (OneRequest(b, requestOf) ==> OneRequest(c, requestOf))
  }

  ghost predicate OneRequest<S, P>(b: Box<S, P>, requestOf: S -> Option<P>) {
    forall p | p in b.posted :: b.state.Some? && requestOf(b.state.value) == Some(p)
  }

  lemma SubmissionIsSound<S, P>(b: Box<S, P>, first: Option<S>, allows: S -> Option<P>, requestOf: S -> Option<P>)
    requires forall s | allows(s).Some? :: requestOf(s) == allows(s)
    ensures forall c | c in Submission(b, first, allows) :: Sound(b, c, requestOf)
  {
  }

  lemma SoundTransitive<S, P>(a: Box<S, P>, b: Box<S, P>, c: Box<S, P>, requestOf: S -> Option<P>)
    requires Sound(a, b, requestOf) && Sound(b, c, requestOf)
    ensures Sound(a, c, requestOf)
  {
  }

  datatype Account = Account(accountId: Text, provider: Text, mayWrite: bool, migrating: bool, did: Text)

  // ---------------------------------------------------------------- messages

  datatype Attachment = Attachment(filename: Text, mediaType: Text, size: nat, digest: Text)

  /** The members of a message request other than its id. */
  datatype Content = Content(text: Text, attachments: Option<seq<Attachment>>, target: Target, replyUntil: Option<nat>)

  datatype Target =
    | ToGrant(grantId: Text, category: Text)
    | ToMessage(messageId: Text)
    | ToConnection(connectionId: Text, epoch: nat, did: Text)

  datatype Message = Message(id: Text, content: Content)

  /** The message state file; a member that is missing or malformed is None. */
  datatype Saved = Saved(accountId: Text, provider: Text, id: Option<Text>, content: Option<Content>)

  datatype Connection = Connection(id: Text, epoch: nat, did: Text)

  datatype Command = Send(grantId: Text, category: Text) | Reply(to: Text) | ConnectionSend(connectionId: Text)

  /** One invocation: its arguments, the file's text, and the provider's answers. */
  datatype SendInput = SendInput(
    command: Command, text: Option<Text>, account: Option<Account>, files: nat, uploads: Option<seq<Attachment>>,
    replyUntil: Option<nat>, connections: Option<seq<Connection>>, newId: Option<Text>, isDid: Text -> bool)

  function RequestOf(s: Saved): Option<Message> {
    if s.id.Some? && s.content.Some? then Some(Message(s.id.value, s.content.value)) else None
  }

  predicate MayWrite(a: Option<Account>) { a.Some? && a.value.mayWrite && !a.value.migrating }

  function Rows(connections: seq<Connection>, id: Text): seq<Connection> {
    if connections == [] then []
    else (if connections[0].id == id then [connections[0]] else []) + Rows(connections[1..], id)
  }

  /** The peer of a connection: the retained one, or else the one row the provider lists. */
  function Peer(saved: Option<Saved>, i: SendInput, id: Text): Option<Target> {
    if saved.Some? then
      if saved.value.content.Some? && saved.value.content.value.target.ToConnection?
         && ValidPeer(i, saved.value.content.value.target.epoch, saved.value.content.value.target.did)
      then Some(ToConnection(id, saved.value.content.value.target.epoch, saved.value.content.value.target.did))
      else None
    else if i.connections.None? then None
    else
      var rows := Rows(i.connections.value, id);
      if |rows| != 1 || !ValidPeer(i, rows[0].epoch, rows[0].did) then None
      else Some(ToConnection(id, rows[0].epoch, rows[0].did))
  }

  predicate ValidPeer(i: SendInput, epoch: nat, did: Text) { 1 <= epoch <= 9007199254740991 && i.isDid(did) }

  function TargetOf(saved: Option<Saved>, i: SendInput): Option<Target> {
    match i.command
    case Send(grantId, category) => Some(ToGrant(grantId, category))
    case Reply(to) => Some(ToMessage(to))
    case ConnectionSend(id) => Peer(saved, i, id)
  }

  /** What this invocation means to send. */
  function Rebuilt(saved: Option<Saved>, i: SendInput): Option<Content> {
    if i.text.None? || !MayWrite(i.account) || i.files > 20 || (i.files > 0 && i.uploads.None?) then None
    else
      match TargetOf(saved, i)
      case None => None
      case Some(target) => Some(Content(i.text.value, if i.files > 0 then i.uploads else None, target, i.replyUntil))
  }

  function FreshSaved(i: SendInput, content: Content): Option<Saved>
    requires i.account.Some?
  {
    if i.newId.None? then None else Some(Saved(i.account.value.accountId, i.account.value.provider, i.newId, Some(content)))
  }

  function Allowed(i: SendInput, content: Content, s: Saved): Option<Message>
    requires i.account.Some?
  {
    if s.id.None? || s.accountId != i.account.value.accountId || s.provider != i.account.value.provider || s.content != Some(content)
    then None else Some(Message(s.id.value, content))
  }

  function Sent(b: Box<Saved, Message>, i: SendInput): seq<Box<Saved, Message>> {
    match Rebuilt(b.state, i)
    case None => []
    case Some(content) => Submission(b, FreshSaved(i, content), s => Allowed(i, content, s))
  }

  /** Whatever is written, the state stays and all that is posted is the retained request. */
  lemma SentIsSound(b: Box<Saved, Message>, i: SendInput)
    ensures forall c | c in Sent(b, i) :: Sound(b, c, RequestOf)
    ensures Sent(b, i) != [] ==> Writer(i.account)
  {
    var content := Rebuilt(b.state, i);
    if content.Some? {
      SubmissionIsSound(b, FreshSaved(i, content.value), s => Allowed(i, content.value, s), RequestOf);
    }
  }

  /** This is the one connection with that id in the provider's list. */
  ghost predicate OnlyRow(connections: seq<Connection>, row: Connection) {
    row in connections && forall j, k | 0 <= j < k < |connections| :: connections[j].id != row.id || connections[k].id != row.id
  }

  lemma {:induction false} NoRows(connections: seq<Connection>, id: Text)
    ensures Rows(connections, id) == [] <==> forall c | c in connections :: c.id != id
    decreases |connections|
  {
    if connections != [] {
      NoRows(connections[1..], id);
      assert connections == [connections[0]] + connections[1..];
    }
  }

  lemma {:induction false} RowsMeans(connections: seq<Connection>, row: Connection)
    ensures Rows(connections, row.id) == [row] <==> OnlyRow(connections, row)
    decreases |connections|
  {
    if connections != [] {
      var first, rest := connections[0], connections[1..];
      RowsMeans(rest, row);
      NoRows(rest, row.id);
      OnlyRowOf(first, rest, row);
      assert connections == [first] + rest;
      if first.id == row.id {
        assert Rows(connections, row.id) == [first] + Rows(rest, row.id);
        FirstOnly(first, Rows(rest, row.id), row);
      } else {
        assert Rows(connections, row.id) == [] + Rows(rest, row.id) == Rows(rest, row.id);
      }
    }
  }

  lemma FirstOnly<T>(first: T, rest: seq<T>, x: T)
    ensures [first] + rest == [x] <==> first == x && rest == []
  {
    var all := [first] + rest;
    assert all[0] == first && |all| == 1 + |rest|;
  }

  lemma OnlyRowOf(first: Connection, rest: seq<Connection>, row: Connection)
    ensures OnlyRow([first] + rest, row) <==>
            if first.id == row.id then first == row && forall c | c in rest :: c.id != row.id else OnlyRow(rest, row)
  {
    var all := [first] + rest;
    assert forall k | 0 <= k < |rest| :: all[k + 1] == rest[k];
    if OnlyRow(all, row) {
      forall c | c in rest
        ensures first.id == row.id ==> c.id != row.id
      {
        var k :| 0 <= k < |rest| && rest[k] == c;
        assert all[0].id != row.id || all[k + 1].id != row.id;
      }
      forall j, k | 0 <= j < k < |rest|
        ensures rest[j].id != row.id || rest[k].id != row.id
      {
        assert all[j + 1].id != row.id || all[k + 1].id != row.id;
      }
      assert first.id == row.id ==> row == first;
      assert first.id != row.id ==> row in rest;
    }
  }

  lemma {:induction false} RowsHaveId(connections: seq<Connection>, id: Text)
    ensures forall c | c in Rows(connections, id) :: c.id == id
    decreases |connections|
  {
    if connections != [] {
      RowsHaveId(connections[1..], id);
    }
  }

  /** The message says no more and no less than the arguments. */
  ghost predicate SaysAsAsked(b: Box<Saved, Message>, i: SendInput, m: Message) {
    && i.text == Some(m.content.text) && m.content.replyUntil == i.replyUntil
    && (if i.files == 0 then m.content.attachments.None? else m.content.attachments.Some? && m.content.attachments == i.uploads)
    && match m.content.target
       case ToGrant(grantId, category) => i.command.Send? && i.command.grantId == grantId && i.command.category == category
       case ToMessage(messageId) => i.command.Reply? && i.command.to == messageId
       case ToConnection(id, epoch, did) =>
         && i.command.ConnectionSend? && i.command.connectionId == id
         && 1 <= epoch <= 9007199254740991 && i.isDid(did)
         && if b.state.Some? then b.state.value.content.Some? && b.state.value.content.value.target == ToConnection(id, epoch, did)
            else i.connections.Some? && OnlyRow(i.connections.value, Connection(id, epoch, did))
  }

  /** The account may write, and is not moving elsewhere. */
  ghost predicate Writer(a: Option<Account>) { exists w: Account :: a == Some(w) && w.mayWrite && !w.migrating }

  /**
   * Exactly one message more has been posted: the one asked for, under the retained id or the new one,
   * from a state that is this account's.
   */
  ghost predicate PostsTheMessage(b: Box<Saved, Message>, i: SendInput, c: Box<Saved, Message>) {
    && (exists m: Message ::
          && c.posted == b.posted + [m] && SaysAsAsked(b, i, m)
          && Some(m.id) == (if b.state.Some? then b.state.value.id else i.newId))
    && Writer(i.account) && c.state.Some?
    && c.state.value.accountId == i.account.value.accountId && c.state.value.provider == i.account.value.provider
  }

  lemma RebuiltAsAsked(b: Box<Saved, Message>, i: SendInput, s: Saved, m: Message)
    requires Rebuilt(b.state, i) == Some(m.content) && (b.state.Some? ==> b.state == Some(s) && s.content == Some(m.content))
    ensures SaysAsAsked(b, i, m)
  {
    hide OnlyRow;
    if i.command.ConnectionSend? && b.state.None? {
      var rows := Rows(i.connections.value, i.command.connectionId);
      assert rows == [rows[0]];
      RowsHaveId(i.connections.value, i.command.connectionId);
      assert rows[0] in rows;
      RowsMeans(i.connections.value, rows[0]);
    }
  }

  /** No state file can make the client post any message but the one that the present arguments ask for. */
  lemma NeverPostsAnother(b: Box<Saved, Message>, i: SendInput, c: Box<Saved, Message>)
    requires c in Sent(b, i) && c.posted != b.posted
    ensures PostsTheMessage(b, i, c)
  {
    assert i.account.Some?;
    hide Rebuilt, SaysAsAsked;
    var content := Rebuilt(b.state, i).value;
    var s := (if b.state.Some? then b.state else FreshSaved(i, content)).value;
    var m := Allowed(i, content, s).value;
    assert c.posted == b.posted + [m];
    RebuiltAsAsked(b, i, s, m);
  }

  /** The arguments ask for something that can be sent, and the provider's answers are good. */
  ghost predicate CanBeSent(i: SendInput) {
    && i.text.Some? && MayWrite(i.account) && i.files <= 20 && (i.files > 0 ==> i.uploads.Some?) && i.newId.Some?
    && (i.command.ConnectionSend? ==>
          && i.connections.Some?
          && exists row :: OnlyRow(i.connections.value, row) && row.id == i.command.connectionId && ValidPeer(i, row.epoch, row.did))
  }

  /** A first invocation retains its message and posts it. */
  lemma FirstSendPosts(i: SendInput, posted: seq<Message>)
    requires CanBeSent(i)
    ensures var ds := Sent(Box(None, posted), i);
            && |ds| == 2 && ds[0].posted == posted && ds[1].state == ds[0].state && ds[0].state.Some?
            && |ds[1].posted| == |posted| + 1 && PostsTheMessage(Box(None, posted), i, ds[1])
            && RequestOf(ds[0].state.value) == Some(ds[1].posted[|posted|])
  {
    var b: Box<Saved, Message> := Box(None, posted);
    if i.command.ConnectionSend? {
      var row :| OnlyRow(i.connections.value, row) && row.id == i.command.connectionId && ValidPeer(i, row.epoch, row.did);
      RowsMeans(i.connections.value, row);
    }
    hide OnlyRow, Rows, PostsTheMessage;
    assert Rebuilt(None, i).Some?;
    hide Rebuilt;
    var ds := Sent(b, i);
    assert |ds| == 2;
    NeverPostsAnother(b, i, ds[1]);
  }

  /** The send command: it retains the request before it posts it, and posts nothing but what is asked for. */
  method SendMessage(io: Journal<Box<Saved, Message>>, i: SendInput)
    modifies io
    ensures io.writes == old(io.writes) + Sent(old(io.Current()), i)
    ensures forall c | c in io.writes[|old(io.writes)|..] :: Sound(old(io.Current()), c, RequestOf)
    ensures io.writes != old(io.writes) ==> Writer(i.account)
    ensures forall c | c in io.writes[|old(io.writes)|..] && c.posted != old(io.Current()).posted :: PostsTheMessage(old(io.Current()), i, c)
    ensures CanBeSent(i) && old(io.Current()).state.None? ==> PostsTheMessage(old(io.Current()), i, io.Current())
  {
    hide Sent, Sound, PostsTheMessage, CanBeSent;
    ghost var b := io.Current();
    SentIsSound(b, i);
    forall c | c in Sent(b, i) && c.posted != b.posted
      ensures PostsTheMessage(b, i, c)
    {
      NeverPostsAnother(b, i, c);
    }
    if CanBeSent(i) && b.state.None? {
      FirstSendPosts(i, b.posted);
    }
    MakeMessage(io, i);
  }

  method MakeMessage(io: Journal<Box<Saved, Message>>, i: SendInput)
    modifies io
    ensures io.writes == old(io.writes) + Sent(old(io.Current()), i)
  {
    var saved := io.Current().state;
    if i.text.None? || !MayWrite(i.account) { return; }
    var attachments := None;
    if i.files > 0 {
      if i.files > 20 || i.uploads.None? { return; }
      attachments := i.uploads;
    }
    var target := TargetOf(saved, i);
    if target.None? { return; }
    var request := Content(i.text.value, attachments, target.value, i.replyUntil);
    if saved.None? {
      if i.newId.None? { return; }
      saved := Some(Saved(i.account.value.accountId, i.account.value.provider, i.newId, Some(request)));
      io.Write(io.Current().(state := saved));
    }
    var s := saved.value;
    if s.id.None? || s.accountId != i.account.value.accountId || s.provider != i.account.value.provider
       || s.content != Some(request)
    {
      return;
    }
    io.Write(io.Current().(posted := io.Current().posted + [Message(s.id.value, request)]));
  }

  datatype SendAttempt = SendAttempt(input: SendInput, survives: nat)

  function SendRun(b: Box<Saved, Message>, attempts: seq<SendAttempt>): Box<Saved, Message>
    decreases |attempts|
  {
    if attempts == [] then b else SendRun(Left(b, Sent(b, attempts[0].input), attempts[0].survives), attempts[1..])
  }

  lemma {:induction false} SendRunIsSound(b: Box<Saved, Message>, attempts: seq<SendAttempt>)
    ensures Sound(b, SendRun(b, attempts), RequestOf)
    decreases |attempts|
  {
    if attempts != [] {
      var i := attempts[0].input;
      SentIsSound(b, i);
      var c := Left(b, Sent(b, i), attempts[0].survives);
      assert Sound(b, c, RequestOf);
      SendRunIsSound(c, attempts[1..]);
      SoundTransitive(b, c, SendRun(b, attempts), RequestOf);
    }
  }

  const UNSENT: Box<Saved, Message> := Box(None, [])

  /** Whatever the invocations, crashes and answers, every message posted from a path is the first one. */
  lemma EveryPostIsTheFirst(attempts: seq<SendAttempt>, more: seq<SendAttempt>)
    ensures var b := SendRun(UNSENT, attempts);
            var c := SendRun(b, more);
            && (forall p, q | p in c.posted && q in c.posted :: p == q)
            && (b.state.Some? ==> c.state == b.state)
            && forall p | p in c.posted :: c.state.Some? && RequestOf(c.state.value) == Some(p)
  {
    SendRunIsSound(UNSENT, attempts);
    SendRunIsSound(SendRun(UNSENT, attempts), more);
  }

  /** A retry posts exactly when the intent it rebuilds, and the account, are the retained ones. */
  lemma RetryPostsIff(b: Box<Saved, Message>, i: SendInput)
    requires b.state.Some?
    ensures var s := b.state.value;
            var posts := i.account.Some? && s.id.Some? && s.content.Some? && Rebuilt(b.state, i) == s.content
                         && s.accountId == i.account.value.accountId && s.provider == i.account.value.provider;
            Sent(b, i) == if posts then [b.(posted := b.posted + [RequestOf(s).value])] else []
  {
  }

  /** The peer of a retried connection message is the retained one, whatever the provider now lists. */
  lemma RetryKeepsThePeer(s: Saved, i: SendInput, listed: Option<seq<Connection>>)
    ensures Rebuilt(Some(s), i) == Rebuilt(Some(s), i.(connections := listed))
  {
  }

  /** A provider that keeps one message per id, and ignores a repeated request. */
  function Delivered(messages: map<Text, Content>, posted: seq<Message>): map<Text, Content>
    decreases |posted|
  {
    if posted == [] then messages
    else
      var m := posted[0];
      Delivered(if m.id in messages then messages else messages[m.id := m.content], posted[1..])
  }

  lemma {:induction false} DeliveredOnce(messages: map<Text, Content>, posted: seq<Message>, m: Message)
    requires forall k | 0 <= k < |posted| :: posted[k] == m
    ensures Delivered(messages, posted) ==
            if posted == [] || m.id in messages then messages else messages[m.id := m.content]
    decreases |posted|
  {
    if posted != [] {
      DeliveredOnce(if m.id in messages then messages else messages[m.id := m.content], posted[1..], m);
    }
  }

  /** At most one message ever results from a state path. */
  lemma AtMostOneMessage(messages: map<Text, Content>, attempts: seq<SendAttempt>)
    ensures var after := Delivered(messages, SendRun(UNSENT, attempts).posted);
            after == messages || exists m: Message :: m.id !in messages && after == messages[m.id := m.content]
  {
    var posted := SendRun(UNSENT, attempts).posted;
    EveryPostIsTheFirst(attempts, []);
    if posted != [] {
      forall k | 0 <= k < |posted|
        ensures posted[k] == posted[0]
      {
        assert posted[k] in posted && posted[0] in posted;
      }
      DeliveredOnce(messages, posted, posted[0]);
    }
  }

  // ---------------------------------------------------------------- conversations

  datatype Verb = Start | ReplyAll | Revive

  datatype Intent = Intent(verb: Verb, source: seq<Text>, text: Option<Text>, connections: Option<seq<Text>>)

  datatype Operation =
    | StartOperation(id: Text, connections: seq<Text>, text: Text)
    | ReplyAllOperation(id: Text, creator: Text, conversationId: Text, sender: Text, messageId: Text, text: Text)
    | ReviveOperation(id: Text, conversationId: Text)

  /** The conversation state file; a request of another shape is None. */
  datatype Retained = Retained(accountId: Text, provider: Text, path: Text, intent: Intent, request: Option<Operation>)

  /** The message a reply-all answers, as the provider shows it. */
  datatype Source = Source(creator: Text, conversationId: Text, active: bool)

  datatype SubmitInput = SubmitInput(
    verb: Verb, positionals: seq<Text>, connections: seq<Text>, text: Option<Text>, account: Option<Account>, newId: Option<Text>,
    source: Option<Source>, isDid: Text -> bool, isId: Text -> bool)

  /** The number of positional arguments each command line is parsed to. */
  predicate Parsed(i: SubmitInput) {
    match i.verb
    case Start => true
    case ReplyAll => |i.positionals| >= 2
    case Revive => |i.positionals| >= 1
  }

  /** What the arguments ask for; start takes the connections in sorted order. */
  function IntentOf(i: SubmitInput): Option<Intent> {
    if !i.verb.Revive? && i.text.None? then None
    else Some(Intent(i.verb, i.positionals, if i.verb.Revive? then None else i.text, if i.verb.Start? then Some(i.connections) else None))
  }

  function PathOf(verb: Verb): Text {
    match verb
    case Start => "/connection-messages"
    case ReplyAll => "/connection-messages/reply-all"
    case Revive => "/connections/cli-conversation-revive"
  }

  /** The request the intent leads to, given an id and, for reply-all, the conversation. */
  function Expected(i: SubmitInput, intent: Intent, id: Text, creator: Text, conversationId: Text): Operation
    requires Parsed(i) && IntentOf(i) == Some(intent)
  {
    match i.verb
    case Start => StartOperation(id, intent.connections.value, intent.text.value)
    case ReplyAll => ReplyAllOperation(id, creator, conversationId, i.positionals[0], i.positionals[1], intent.text.value)
    case Revive => ReviveOperation(id, i.positionals[0])
  }

  function FreshRetained(i: SubmitInput, intent: Intent): Option<Retained>
    requires Parsed(i) && IntentOf(i) == Some(intent) && i.account.Some?
  {
    if i.newId.None? then None
    else if i.verb.ReplyAll? && (i.source.None? || !i.isDid(i.source.value.creator) || !i.isId(i.source.value.conversationId)
                                 || !i.source.value.active)
    then None
    else
      var request := Expected(i, intent, i.newId.value, if i.verb.ReplyAll? then i.source.value.creator else "",
                              if i.verb.ReplyAll? then i.source.value.conversationId else "");
      Some(Retained(i.account.value.accountId, i.account.value.provider, PathOf(i.verb), intent, Some(request)))
  }

  /** A retained request is derived anew from the present intent, and posted only if it is the same. */
  function Rederived(i: SubmitInput, intent: Intent, s: Retained): Option<Operation>
    requires Parsed(i) && IntentOf(i) == Some(intent) && i.account.Some?
  {
    if s.accountId != i.account.value.accountId || s.provider != i.account.value.provider || s.intent != intent || s.path != PathOf(i.verb)
    then None
    else if s.request.None? || !i.isId(s.request.value.id) then None
    else
      var r := s.request.value;
      if i.verb.ReplyAll? && !(r.ReplyAllOperation? && i.isDid(r.creator) && i.isId(r.conversationId)) then None
      else
        var expected := Expected(i, intent, r.id, if i.verb.ReplyAll? then r.creator else "",
                                 if i.verb.ReplyAll? then r.conversationId else "");
        if r == expected then Some(r) else None
  }

  function Submitted(b: Box<Retained, Operation>, i: SubmitInput): seq<Box<Retained, Operation>>
    requires Parsed(i)
  {
    if !MayWrite(i.account) || IntentOf(i).None? then []
    else
      var intent := IntentOf(i).value;
      Submission(b, if b.state.Some? then None else FreshRetained(i, intent), s => Rederived(i, intent, s))
  }

  lemma SubmittedIsSound(b: Box<Retained, Operation>, i: SubmitInput)
    requires Parsed(i)
    ensures forall c | c in Submitted(b, i) :: Sound(b, c, OperationOf)
    ensures Submitted(b, i) != [] ==> Writer(i.account)
  {
    hide FreshRetained, Expected;
    if MayWrite(i.account) && IntentOf(i).Some? {
      var intent := IntentOf(i).value;
      SubmissionIsSound(b, if b.state.Some? then None else FreshRetained(i, intent), s => Rederived(i, intent, s), OperationOf);
    }
  }

  function OperationOf(s: Retained): Option<Operation> { s.request }

  /** The submit command: nothing it posts is anything but what the present arguments ask for. */
  method SubmitConversation(io: Journal<Box<Retained, Operation>>, i: SubmitInput)
    requires Parsed(i)
    modifies io
    ensures io.writes == old(io.writes) + Submitted(old(io.Current()), i)
    ensures forall c | c in io.writes[|old(io.writes)|..] :: Sound(old(io.Current()), c, OperationOf)
    ensures io.writes != old(io.writes) ==> Writer(i.account)
    ensures forall c | c in io.writes[|old(io.writes)|..] && c.posted != old(io.Current()).posted :: PostsAsAsked(old(io.Current()), i, c)
  {
    hide Submitted, Sound, PostsAsAsked;
    var b := io.Current();
    SubmittedIsSound(b, i);
    forall c | c in Submitted(b, i) && c.posted != b.posted
      ensures PostsAsAsked(b, i, c)
    {
      NeverPostsAForgery(b, i, c);
    }
    MakeOperation(io, i);
  }

  method MakeOperation(io: Journal<Box<Retained, Operation>>, i: SubmitInput)
    requires Parsed(i)
    modifies io
    ensures io.writes == old(io.writes) + Submitted(old(io.Current()), i)
  {
    if !MayWrite(i.account) { return; }
    var saved := io.Current().state;
    var intent := Intent(i.verb, i.positionals, None, None);
    if !i.verb.Revive? {
      if i.text.None? { return; }
      intent := intent.(text := i.text);
    }
    if i.verb.Start? {
      intent := intent.(connections := Some(i.connections));
    }
    if saved.None? {
      saved := FreshRetained(i, intent);
      if saved.None? { return; }
      io.Write(io.Current().(state := saved));
    }
    var request := Rederived(i, intent, saved.value);
    if request.None? { return; }
    io.Write(io.Current().(posted := io.Current().posted + [request.value]));
  }

  datatype SubmitAttempt = SubmitAttempt(input: SubmitInput, survives: nat)

  ghost predicate AllParsed(attempts: seq<SubmitAttempt>) { forall a | a in attempts :: Parsed(a.input) }

  function SubmitRun(b: Box<Retained, Operation>, attempts: seq<SubmitAttempt>): Box<Retained, Operation>
    requires AllParsed(attempts)
    decreases |attempts|
  {
    if attempts == [] then b else SubmitRun(Left(b, Submitted(b, attempts[0].input), attempts[0].survives), attempts[1..])
  }

  lemma {:induction false} SubmitRunIsSound(b: Box<Retained, Operation>, attempts: seq<SubmitAttempt>)
    requires AllParsed(attempts)
    ensures Sound(b, SubmitRun(b, attempts), OperationOf)
    decreases |attempts|
  {
    hide Submitted;
    if attempts != [] {
      var i := attempts[0].input;
      SubmittedIsSound(b, i);
      var c := Left(b, Submitted(b, i), attempts[0].survives);
      assert Sound(b, c, OperationOf);
      SubmitRunIsSound(c, attempts[1..]);
      SoundTransitive(b, c, SubmitRun(b, attempts), OperationOf);
    }
  }

  /** Even from a state file that someone else has written, all requests posted are one and the same. */
  lemma OneOperation(state: Option<Retained>, attempts: seq<SubmitAttempt>)
    requires AllParsed(attempts)
    ensures var b := SubmitRun(Box(state, []), attempts);
            && (state.Some? ==> b.state == state)
            && forall p, q | p in b.posted && q in b.posted :: p == q
  {
    SubmitRunIsSound(Box(state, []), attempts);
  }

  /**
   * No state file can make the client post anything but what the present arguments ask for: its
   * recipients, text, source and target are those of this invocation.
   */
  lemma NeverPostsAForgery(b: Box<Retained, Operation>, i: SubmitInput, c: Box<Retained, Operation>)
    requires Parsed(i) && c in Submitted(b, i) && c.posted != b.posted
    ensures PostsAsAsked(b, i, c)
  {
    var intent := IntentOf(i).value;
    var state := if b.state.Some? then b.state else FreshRetained(i, intent);
    var r := Rederived(i, intent, state.value).value;
    assert c.posted == b.posted + [r] && Asks(i, r) && (b.state.None? ==> Fresh(i, r));
  }

  /** Exactly one request more has been posted: the one asked for, from this account's state, to its verb's path. */
  ghost predicate PostsAsAsked(b: Box<Retained, Operation>, i: SubmitInput, c: Box<Retained, Operation>)
    requires Parsed(i)
  {
    && (exists r :: c.posted == b.posted + [r] && i.isId(r.id) && Asks(i, r) && (if b.state.Some? then b.state.value.request == Some(r) else Fresh(i, r)))
    && Writer(i.account) && c.state.Some?
    && c.state.value.intent == Intent(i.verb, i.positionals, if i.verb.Revive? then None else i.text, if i.verb.Start? then Some(i.connections) else None)
    && c.state.value.accountId == i.account.value.accountId && c.state.value.provider == i.account.value.provider
    && c.state.value.path == (if i.verb.Revive? then "/connections/cli-conversation-revive"
                              else if i.verb.Start? then "/connection-messages" else "/connection-messages/reply-all")
  }

  /** A new request has the new id, and a reply to all goes to the active conversation of the message it answers. */
  ghost predicate Fresh(i: SubmitInput, r: Operation) {
    && Some(r.id) == i.newId
    && (r.ReplyAllOperation? ==> i.source == Some(Source(r.creator, r.conversationId, true)))
  }

  /** The request says no more and no less than the arguments. */
  ghost predicate Asks(i: SubmitInput, r: Operation)
    requires Parsed(i)
  {
    match r
    case StartOperation(_, connections, text) => i.verb.Start? && connections == i.connections && i.text == Some(text)
    case ReplyAllOperation(_, creator, conversationId, sender, messageId, text) =>
      i.verb.ReplyAll? && sender == i.positionals[0] && messageId == i.positionals[1] && i.text == Some(text)
      && i.isDid(creator) && i.isId(conversationId)
    case ReviveOperation(_, conversationId) => i.verb.Revive? && conversationId == i.positionals[0]
  }

  /** The request a first invocation retains passes its own review, so a first run always posts. */
  lemma FirstRunPosts(i: SubmitInput, posted: seq<Operation>)
    requires Parsed(i) && MayWrite(i.account) && IntentOf(i).Some?
    requires i.newId.Some? && i.isId(i.newId.value)
    requires i.verb.ReplyAll? ==>
               i.source.Some? && i.source.value.active && i.isDid(i.source.value.creator) && i.isId(i.source.value.conversationId)
    ensures var b := Left(Box(None, posted), Submitted(Box(None, posted), i), 2);
            && |b.posted| == |posted| + 1 && b.state.Some? && b.state.value.request == Some(b.posted[|posted|])
            && PostsAsAsked(Box(None, posted), i, b)
  {
    var s := FreshRetained(i, IntentOf(i).value).value;
    assert Rederived(i, IntentOf(i).value, s) == s.request;
    var ds := Submitted(Box(None, posted), i);
    assert |ds| == 2;
    NeverPostsAForgery(Box(None, posted), i, ds[1]);
  }
}
