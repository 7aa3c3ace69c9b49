/**
 Change routing for Messages: from the exact row changes of a prepared point to the message rows whose decoded
 output may differ, and why every other message reads the same before and after.
 */
module Routing {
  import opened Wrappers

  datatype Message = Message(guid: Option<string>, parent: Option<string>, handle: Option<int>, other: Option<int>,
                             ck: Option<string>, rest: string)

  datatype Handle = Handle(service: Option<string>, id: Option<string>, rest: string)

  datatype Chat = Chat(guid: Option<string>, identifier: Option<string>, service: Option<string>, rest: string)

  datatype Link = Link(chat: int, message: int, rest: string)

  datatype Attached = Attached(message: int, attachment: int)

  /** The mirrored tables, by row id. */
  datatype Tables = Tables(messages: map<int, Message>, handles: map<int, Handle>, chats: map<int, Chat>, attachments: map<int, string>,
                           links: map<int, Link>, recoverable: map<int, Link>, attached: map<int, Attached>, members: map<int, string>)

  function At<T>(rows: map<int, T>, id: int): Option<T> {
    if id in rows then Some(rows[id]) else None
  }

  // ---- The identifier of an inferred chat ----

  /** `instr`: the 1-based place of the first semicolon, or 0. */
  function Instr(s: string): (n: nat)
    ensures n <= |s| && (n > 0 ==> s[n - 1] == ';') && forall i :: 0 <= i < |s| && (n == 0 || i < n - 1) ==> s[i] != ';'
  {
    if s == [] then 0 else if s[0] == ';' then 1 else
      var n := Instr(s[1..]);
      if n == 0 then 0 else n + 1
  }

  /** The indexed SQL expression. */
  function CkIdentifier(ck: string): string {
    if Instr(ck) == 0 then ck
    else
      var rest := ck[Instr(ck)..];
      if Instr(rest) == 0 then rest else ck[Instr(ck) + Instr(rest)..]
  }

  /** `s.split(';', n)`. */
  function Split(s: string, n: nat): (r: seq<string>)
    ensures r != []
  {
    var i := Instr(s);
    if n == 0 || i == 0 then [s] else [s[..i - 1]] + Split(s[i..], n - 1)
  }

  function Last(parts: seq<string>): string
    requires parts != []
  {
    parts[|parts| - 1]
  }

  lemma SplitOne(s: string)
    ensures Last(Split(s, 1)) == if Instr(s) == 0 then s else s[Instr(s)..]
  {
    if Instr(s) > 0 { assert Split(s, 1) == [s[..Instr(s) - 1]] + [s[Instr(s)..]]; }
  }

  /** The index expression is the adapter's `split(';', 2)[-1]`. */
  lemma CkIdentifierIsTail(ck: string)
    ensures CkIdentifier(ck) == Last(Split(ck, 2))
  {
    hide Instr;
    var i := Instr(ck);
    if i > 0 {
      var rest := ck[i..];
      SplitOne(rest);
      assert Split(ck, 2) == [ck[..i - 1]] + Split(rest, 1);
      assert Last(Split(ck, 2)) == Last(Split(rest, 1));
      assert Instr(rest) > 0 ==> rest[Instr(rest)..] == ck[i + Instr(rest)..];
    }
  }

  function OrEmpty(s: Option<string>): string { if s.Some? then s.value else "" }

  // ---- Changes ----

  /** A changed row with its contents before and after. */
  datatype Change =
    | MessageChange(id: int, was: Option<Message>, now: Option<Message>)
    | HandleChange(id: int, oldHandle: Option<Handle>, newHandle: Option<Handle>)
    | ChatChange(id: int, oldChat: Option<Chat>, newChat: Option<Chat>)
    | AttachmentChange(id: int)
    | LinkChange(id: int, oldLink: Option<Link>, newLink: Option<Link>)
    | RecoverableChange(id: int, oldLink: Option<Link>, newLink: Option<Link>)
    | AttachedChange(id: int, oldAttached: Option<Attached>, newAttached: Option<Attached>)
    | MemberChange(id: int)
    | UnknownChange(table: string)

  ghost predicate Genuine(c: Change, a: Tables, b: Tables) {
    match c
    case MessageChange(id, was, now) => was == At(a.messages, id) && now == At(b.messages, id) && was != now
    case HandleChange(id, was, now) => was == At(a.handles, id) && now == At(b.handles, id) && was != now
    case ChatChange(id, was, now) => was == At(a.chats, id) && now == At(b.chats, id) && was != now
    case AttachmentChange(id) => At(a.attachments, id) != At(b.attachments, id)
    case LinkChange(id, was, now) => was == At(a.links, id) && now == At(b.links, id) && was != now
    case RecoverableChange(id, was, now) => was == At(a.recoverable, id) && now == At(b.recoverable, id) && was != now
    case AttachedChange(id, was, now) => was == At(a.attached, id) && now == At(b.attached, id) && was != now
    case MemberChange(id) => At(a.members, id) != At(b.members, id)
    case UnknownChange(_) => false
  }

  /** The exact difference between two states of the tables. */
  ghost predicate IsDiff(changes: seq<Change>, a: Tables, b: Tables) {
    && (forall i :: 0 <= i < |changes| ==> Genuine(changes[i], a, b))
    && (forall id :: At(a.messages, id) != At(b.messages, id) ==> MessageChange(id, At(a.messages, id), At(b.messages, id)) in changes)
    && (forall id :: At(a.handles, id) != At(b.handles, id) ==> HandleChange(id, At(a.handles, id), At(b.handles, id)) in changes)
    && (forall id :: At(a.chats, id) != At(b.chats, id) ==> ChatChange(id, At(a.chats, id), At(b.chats, id)) in changes)
    && (forall id :: At(a.attachments, id) != At(b.attachments, id) ==> AttachmentChange(id) in changes)
    && (forall id :: At(a.links, id) != At(b.links, id) ==> LinkChange(id, At(a.links, id), At(b.links, id)) in changes)
    && (forall id :: At(a.recoverable, id) != At(b.recoverable, id) ==>
          RecoverableChange(id, At(a.recoverable, id), At(b.recoverable, id)) in changes)
    && (forall id :: At(a.attached, id) != At(b.attached, id) ==> AttachedChange(id, At(a.attached, id), At(b.attached, id)) in changes)
    && (forall id :: At(a.members, id) != At(b.members, id) ==> MemberChange(id) in changes)
  }

  // ---- What one change contributes ----

  datatype Gathered = Gathered(selected: set<int>, handles: set<int>, chats: set<int>, attachments: set<int>, identifiers: set<string>,
                               guids: set<string>, parents: set<string>, stubs: set<string>, linked: set<int>, presence: set<int>,
                               oldGuids: map<int, Option<string>>, oldCk: map<int, Option<string>>, headers: set<string>)

  function Nothing(): Gathered { Gathered({}, {}, {}, {}, {}, {}, {}, {}, {}, {}, map[], map[], {}) }

  function Known(s: Option<string>): set<string> { if s.Some? then {s.value} else {} }

  function GuidOf(m: Option<Message>): Option<string> { if m.Some? then m.value.guid else None }

  function ParentOf(m: Option<Message>): Option<string> { if m.Some? then m.value.parent else None }

  function CkOf(m: Option<Message>): Option<string> { if m.Some? then m.value.ck else None }

  function LinkedTo(l: Option<Link>): set<int> { if l.Some? then {l.value.message} else {} }

  function AttachedTo(a: Option<Attached>): set<int> { if a.Some? then {a.value.message} else {} }

  function AttachedOf(a: Option<Attached>): set<int> { if a.Some? then {a.value.attachment} else {} }

  function IdentifierOf(c: Option<Chat>): set<string> { if c.Some? then {OrEmpty(c.value.identifier)} else {} }

  predicate HandleMoved(a: Option<Handle>, b: Option<Handle>) {
    a.None? || b.None? || a.value.service != b.value.service || a.value.id != b.value.id
  }

  predicate ChatRenamed(a: Option<Chat>, b: Option<Chat>) { a.None? || b.None? || a.value.guid != b.value.guid }

  predicate ChatMoved(a: Option<Chat>, b: Option<Chat>) {
    a.None? || b.None? || a.value.guid != b.value.guid || a.value.identifier != b.value.identifier || a.value.service != b.value.service
  }

  function Gather(g: Gathered, c: Change): Gathered {
    match c
    case MessageChange(id, was, now) =>
      g.(selected := g.selected + {id},
         oldGuids := g.oldGuids[id := GuidOf(was)], oldCk := g.oldCk[id := CkOf(was)],
         guids := g.guids + Known(GuidOf(was)) + Known(GuidOf(now)),
         parents := g.parents + Known(ParentOf(was)) + Known(ParentOf(now)),
         stubs := if CkOf(was) != CkOf(now) || was.None? || now.None? then g.stubs + Known(CkOf(was)) + Known(CkOf(now)) else g.stubs,
         presence := if was.None? || now.None? then g.presence + {id} else g.presence)
    case HandleChange(id, was, now) =>
      g.(handles := if HandleMoved(was, now) then g.handles + {id} else g.handles, headers := g.headers + {"handle"})
    case ChatChange(id, was, now) =>
      g.(chats := if ChatRenamed(was, now) then g.chats + {id} else g.chats,
         identifiers := if ChatMoved(was, now) then g.identifiers + IdentifierOf(was) + IdentifierOf(now) else g.identifiers,
         headers := g.headers + {"chat"})
    case AttachmentChange(id) => g.(attachments := g.attachments + {id})
    case LinkChange(id, was, now) =>
      g.(selected := g.selected + LinkedTo(was) + LinkedTo(now), linked := g.linked + LinkedTo(was) + LinkedTo(now))
    case RecoverableChange(id, was, now) => g.(selected := g.selected + LinkedTo(was) + LinkedTo(now))
    case AttachedChange(id, was, now) =>
      g.(selected := g.selected + AttachedTo(was) + AttachedTo(now), attachments := g.attachments + AttachedOf(was) + AttachedOf(now))
    case MemberChange(id) => g.(headers := g.headers + {"chat_handle_join"})
    case UnknownChange(table) => g
  }

  function GatherAll(changes: seq<Change>): Gathered {
    if changes == [] then Nothing() else Gather(GatherAll(changes[..|changes| - 1]), changes[|changes| - 1])
  }

  // ---- Queries against the new tables ----

  predicate Linked(t: Tables, m: int) { exists j :: j in t.links && t.links[j].message == m }

  function WithGuid(t: Tables, guids: set<string>): set<int> {
    set m | m in t.messages && t.messages[m].guid.Some? && t.messages[m].guid.value in guids
  }

  function WithHandle(t: Tables, handles: set<int>): set<int> {
    set m | m in t.messages && ((t.messages[m].handle.Some? && t.messages[m].handle.value in handles)
                                || (t.messages[m].other.Some? && t.messages[m].other.value in handles))
  }

  function InChats(t: Tables, chats: set<int>): set<int> {
    set j | j in t.links && t.links[j].chat in chats :: t.links[j].message
  }

  function WithIdentifier(t: Tables, identifiers: set<string>): set<int> {
    set m | m in t.messages && t.messages[m].ck.Some? && CkIdentifier(t.messages[m].ck.value) in identifiers && !Linked(t, m)
  }

  function AttachmentsOf(t: Tables, messages: set<int>): set<int> {
    set j | j in t.attached && t.attached[j].message in messages :: t.attached[j].attachment
  }

  function OwnersOf(t: Tables, attachments: set<int>): set<int> {
    set j | j in t.attached && t.attached[j].attachment in attachments :: t.attached[j].message
  }

  function CksOf(t: Tables, messages: set<int>): set<string> {
    set m | m in messages && m in t.messages && t.messages[m].ck.Some? :: t.messages[m].ck.value
  }

  function KnownAt(old_: map<int, Option<string>>, ids: set<int>): set<string> {
    set m | m in ids && m in old_ && old_[m].Some? :: old_[m].value
  }

  function WithCk(t: Tables, cks: set<string>): set<int> {
    set m | m in t.messages && t.messages[m].ck.Some? && t.messages[m].ck.value in cks && !Linked(t, m)
  }

  function GuidsOf(t: Tables, messages: set<int>): set<string> {
    set m | m in messages && m in t.messages && t.messages[m].guid.Some? :: t.messages[m].guid.value
  }

  /** The attachments whose joined messages are affected. */
  function Touched(t: Tables, g: Gathered, media: set<int>): set<int> {
    g.attachments + media + AttachmentsOf(t, g.presence)
  }

  /** Every affected row before equal GUIDs are added. */
  function Direct(t: Tables, g: Gathered, media: set<int>): set<int> {
    g.selected + WithGuid(t, g.guids + g.parents) + WithHandle(t, g.handles) + InChats(t, g.chats) + WithIdentifier(t, g.identifiers)
    + OwnersOf(t, Touched(t, g, media)) + WithCk(t, g.stubs + CksOf(t, g.linked) + KnownAt(g.oldCk, g.linked))
  }

  function Selected(t: Tables, g: Gathered, media: set<int>): set<int> {
    Direct(t, g, media) + WithGuid(t, GuidsOf(t, Direct(t, g, media)))
  }

  function OldKeys(t: Tables, g: Gathered, selected: set<int>): set<string> {
    (set m | m in selected && m in t.messages && m !in g.oldGuids && t.messages[m].guid.Some? :: t.messages[m].guid.value)
    + KnownAt(g.oldGuids, g.oldGuids.Keys)
  }

  function Inference(t: Tables, g: Gathered, selected: set<int>): set<string> {
    CksOf(t, selected) + KnownAt(g.oldCk, g.oldCk.Keys)
  }

  datatype Selection = Selection(rows: set<int>, oldKeys: set<string>, newKeys: set<string>, inferred: set<string>, headers: set<string>)

  datatype RoutingError = RoutingUnavailable

  function Routed(t: Tables, g: Gathered, media: set<int>): Selection {
    var rows := Selected(t, g, media);
    var inferred := Inference(t, g, rows);
    Selection(rows, OldKeys(t, g, rows), GuidsOf(t, rows), inferred,
              if inferred != {} || g.identifiers != {} then g.headers + {"message.ck_chat_id"} else g.headers)
  }

  /** Reads the changes of the pending point one by one, then asks the new tables what else they affect. */
  method RouteChanges(t: Tables, changes: seq<Change>, media: set<int>, baseline: bool, pinned: bool) returns (r: Result<Selection, RoutingError>)
    ensures r.Ok? <==> !baseline && pinned && forall i :: 0 <= i < |changes| ==> !changes[i].UnknownChange?
    ensures r.Ok? ==> r.value == Routed(t, GatherAll(changes), media)
  {
    if baseline || !pinned { return Err(RoutingUnavailable); }
    var g := Nothing();
    for i := 0 to |changes|
      invariant g == GatherAll(changes[..i]) && forall k :: 0 <= k < i ==> !changes[k].UnknownChange?
    {
      if changes[i].UnknownChange? { return Err(RoutingUnavailable); }
      assert changes[..i + 1][..i] == changes[..i];
      g := Gather(g, changes[i]);
    }
    assert changes[..|changes|] == changes;
    return Ok(Routed(t, g, media));
  }

  // ---- What a message's output is computed from ----

  type HandleKey = Option<(Option<string>, Option<string>)>

  function KeyOf(t: Tables, h: Option<int>): HandleKey {
    if h.Some? && h.value in t.handles then Some((t.handles[h.value].service, t.handles[h.value].id)) else None
  }

  function LinksOf(links: map<int, Link>, r: int): map<int, Link> {
    map j | j in links && links[j].message == r :: links[j]
  }

  function JoinsOf(t: Tables, r: int): map<int, Attached> {
    map j | j in t.attached && t.attached[j].message == r :: t.attached[j]
  }

  /** The attachments joined to a message. */
  function Carried(t: Tables, r: int): set<int> {
    set j | j in t.attached && t.attached[j].message == r :: t.attached[j].attachment
  }

  function RowsOf(t: Tables, carried: set<int>): map<int, string> {
    map x | x in t.attachments && x in carried :: t.attachments[x]
  }

  /** Every join of those attachments: they decide which message owns each. */
  function Sharing(t: Tables, carried: set<int>): map<int, Attached> {
    map j | j in t.attached && t.attached[j].attachment in carried :: t.attached[j]
  }

  function Replies(t: Tables, guid: Option<string>): map<int, Message> {
    map m | m in t.messages && guid.Some? && t.messages[m].parent == guid :: t.messages[m]
  }

  /** The guid of each chat that the message is linked to. */
  function ChatGuids(t: Tables, r: int): map<int, Option<string>> {
    map c | c in t.chats && (exists j :: j in t.links && t.links[j].message == r && t.links[j].chat == c) :: t.chats[c].guid
  }

  /** The chats that an unlinked message may be inferred to belong to. */
  function Candidates(t: Tables, ck: Option<string>): map<int, (Option<string>, Option<string>)> {
    map c | c in t.chats && ck.Some? && OrEmpty(t.chats[c].identifier) == CkIdentifier(ck.value) :: (t.chats[c].guid, t.chats[c].service)
  }

  datatype Inputs = Inputs(row: Option<Message>, links: map<int, Link>, recoverable: map<int, Link>, joins: map<int, Attached>,
                           attachments: map<int, string>, sharing: map<int, Attached>, replies: map<int, Message>,
                           sender: HandleKey, subject: HandleKey, chats: map<int, Option<string>>,
                           inferred: map<int, (Option<string>, Option<string>)>)

  /** Everything that the decoder and the adapter read for message row `r`. */
  function InputsOf(t: Tables, r: int): Inputs {
    var row := At(t.messages, r);
    Inputs(row, LinksOf(t.links, r), LinksOf(t.recoverable, r), JoinsOf(t, r),
           RowsOf(t, Carried(t, r)), Sharing(t, Carried(t, r)), Replies(t, GuidOf(row)),
           KeyOf(t, if row.Some? then row.value.handle else None), KeyOf(t, if row.Some? then row.value.other else None),
           ChatGuids(t, r), if Linked(t, r) then map[] else Candidates(t, CkOf(row)))
  }

  // ---- Every change contributes ----

  ghost predicate Contributes(g: Gathered, c: Change) {
    match c
    case MessageChange(id, was, now) =>
      && id in g.selected && Known(GuidOf(was)) + Known(GuidOf(now)) <= g.guids && Known(ParentOf(was)) + Known(ParentOf(now)) <= g.parents
      && (CkOf(was) != CkOf(now) || was.None? || now.None? ==> Known(CkOf(was)) + Known(CkOf(now)) <= g.stubs)
    case HandleChange(id, was, now) => HandleMoved(was, now) ==> id in g.handles
    case ChatChange(id, was, now) =>
      (ChatRenamed(was, now) ==> id in g.chats) && (ChatMoved(was, now) ==> IdentifierOf(was) + IdentifierOf(now) <= g.identifiers)
    case AttachmentChange(id) => id in g.attachments
    case LinkChange(id, was, now) => LinkedTo(was) + LinkedTo(now) <= g.selected && LinkedTo(was) + LinkedTo(now) <= g.linked
    case RecoverableChange(id, was, now) => LinkedTo(was) + LinkedTo(now) <= g.selected
    case AttachedChange(id, was, now) =>
      AttachedTo(was) + AttachedTo(now) <= g.selected && AttachedOf(was) + AttachedOf(now) <= g.attachments
    case MemberChange(_) => true
    case UnknownChange(_) => true
  }

  lemma ContributesStill(g: Gathered, c: Change, d: Change)
    requires Contributes(g, c)
    ensures Contributes(Gather(g, d), c)
  {
    var h := Gather(g, d);
    assert g.selected <= h.selected && g.guids <= h.guids && g.parents <= h.parents && g.handles <= h.handles;
    assert g.chats <= h.chats && g.identifiers <= h.identifiers && g.attachments <= h.attachments;
    assert g.stubs <= h.stubs && g.linked <= h.linked;
  }

  lemma {:induction false} AllContribute(changes: seq<Change>, c: Change)
    requires c in changes
    ensures Contributes(GatherAll(changes), c)
    decreases |changes|
  {
    var front, last := changes[..|changes| - 1], changes[|changes| - 1];
    if c == last {
      assert Contributes(Gather(GatherAll(front), last), last);
    } else {
      assert c in front;
      AllContribute(front, c);
      ContributesStill(GatherAll(front), c, last);
    }
  }

  /** What the diff promises about the gathered sets. */
  ghost predicate Covers(g: Gathered, a: Tables, b: Tables) {
    && (forall id :: At(a.messages, id) != At(b.messages, id) ==> Contributes(g, MessageChange(id, At(a.messages, id), At(b.messages, id))))
    && (forall id :: At(a.handles, id) != At(b.handles, id) ==> Contributes(g, HandleChange(id, At(a.handles, id), At(b.handles, id))))
    && (forall id :: At(a.chats, id) != At(b.chats, id) ==> Contributes(g, ChatChange(id, At(a.chats, id), At(b.chats, id))))
    && (forall id :: At(a.attachments, id) != At(b.attachments, id) ==> Contributes(g, AttachmentChange(id)))
    && (forall id :: At(a.links, id) != At(b.links, id) ==> Contributes(g, LinkChange(id, At(a.links, id), At(b.links, id))))
    && (forall id :: At(a.recoverable, id) != At(b.recoverable, id) ==>
          Contributes(g, RecoverableChange(id, At(a.recoverable, id), At(b.recoverable, id))))
    && (forall id :: At(a.attached, id) != At(b.attached, id) ==> Contributes(g, AttachedChange(id, At(a.attached, id), At(b.attached, id))))
  }

  lemma DiffCovers(changes: seq<Change>, a: Tables, b: Tables)
    requires IsDiff(changes, a, b)
    ensures Covers(GatherAll(changes), a, b)
  {
    hide Contributes, GatherAll;
    forall c | c in changes ensures Contributes(GatherAll(changes), c) { AllContribute(changes, c); }
  }

  // ---- The frame theorem, part by part ----

  ghost predicate Outside(g: Gathered, a: Tables, b: Tables, media: set<int>, r: int) {
    Covers(g, a, b) && r !in Direct(b, g, media)
  }

  lemma SameRow(g: Gathered, a: Tables, b: Tables, media: set<int>, r: int)
    requires Outside(g, a, b, media, r)
    ensures At(a.messages, r) == At(b.messages, r)
  {
  }

  lemma LinksEqual(x: map<int, Link>, y: map<int, Link>, r: int)
    requires forall j :: At(x, j) != At(y, j) ==> r !in LinkedTo(At(x, j)) + LinkedTo(At(y, j))
    ensures LinksOf(x, r) == LinksOf(y, r)
  {
    forall j ensures (j in LinksOf(x, r) <==> j in LinksOf(y, r)) && (j in LinksOf(x, r) ==> x[j] == y[j]) {
      assert At(x, j) == At(y, j) || r !in LinkedTo(At(x, j)) + LinkedTo(At(y, j));
    }
  }

  lemma LinkedIs(t: Tables, r: int)
    ensures Linked(t, r) <==> LinksOf(t.links, r) != map[]
  {
    if Linked(t, r) { var j :| j in t.links && t.links[j].message == r; assert j in LinksOf(t.links, r); }
    if LinksOf(t.links, r) != map[] { Inhabited(LinksOf(t.links, r).Keys); var j :| j in LinksOf(t.links, r).Keys; assert t.links[j].message == r; }
  }

  lemma SameLinks(g: Gathered, a: Tables, b: Tables, media: set<int>, r: int)
    requires Outside(g, a, b, media, r)
    ensures LinksOf(a.links, r) == LinksOf(b.links, r) && Linked(a, r) == Linked(b, r)
    ensures LinksOf(a.recoverable, r) == LinksOf(b.recoverable, r)
  {
    assert r !in g.selected;
    forall j | At(a.links, j) != At(b.links, j) ensures r !in LinkedTo(At(a.links, j)) + LinkedTo(At(b.links, j)) {
      assert Contributes(g, LinkChange(j, At(a.links, j), At(b.links, j)));
    }
    forall j | At(a.recoverable, j) != At(b.recoverable, j) ensures r !in LinkedTo(At(a.recoverable, j)) + LinkedTo(At(b.recoverable, j)) {
      assert Contributes(g, RecoverableChange(j, At(a.recoverable, j), At(b.recoverable, j)));
    }
    LinksEqual(a.links, b.links, r);
    LinksEqual(a.recoverable, b.recoverable, r);
    LinkedIs(a, r);
    LinkedIs(b, r);
  }

  lemma CarriedIs(t: Tables, r: int, x: int)
    ensures x in Carried(t, r) <==> exists j :: j in JoinsOf(t, r) && JoinsOf(t, r)[j].attachment == x
  {
    if x in Carried(t, r) {
      var j :| j in t.attached && t.attached[j].message == r && t.attached[j].attachment == x;
      assert j in JoinsOf(t, r) && JoinsOf(t, r)[j].attachment == x;
    }
  }

  lemma SameJoins(g: Gathered, a: Tables, b: Tables, media: set<int>, r: int)
    requires Outside(g, a, b, media, r)
    ensures JoinsOf(a, r) == JoinsOf(b, r) && Carried(a, r) == Carried(b, r)
  {
    assert r !in g.selected;
    forall j ensures (j in JoinsOf(a, r) <==> j in JoinsOf(b, r)) && (j in JoinsOf(a, r) ==> a.attached[j] == b.attached[j]) {
      assert At(a.attached, j) == At(b.attached, j) || Contributes(g, AttachedChange(j, At(a.attached, j), At(b.attached, j)));
    }
    assert JoinsOf(a, r) == JoinsOf(b, r);
    forall x ensures x in Carried(a, r) <==> x in Carried(b, r) {
      CarriedIs(a, r, x);
      CarriedIs(b, r, x);
    }
  }

  /** An attachment carried by an unselected message was not touched at all. */
  lemma Untouched(g: Gathered, a: Tables, b: Tables, media: set<int>, r: int, x: int)
    requires Outside(g, a, b, media, r) && x in Carried(b, r)
    ensures x !in g.attachments && x !in media
  {
    var j :| j in b.attached && b.attached[j].message == r && b.attached[j].attachment == x;
    assert x in Touched(b, g, media) ==> r in OwnersOf(b, Touched(b, g, media));
  }

  lemma SharingEqual(a: Tables, b: Tables, carried: set<int>)
    requires forall j :: At(a.attached, j) != At(b.attached, j) ==> (AttachedOf(At(a.attached, j)) + AttachedOf(At(b.attached, j))) !! carried
    ensures Sharing(a, carried) == Sharing(b, carried)
  {
    forall j ensures (j in Sharing(a, carried) <==> j in Sharing(b, carried)) && (j in Sharing(a, carried) ==> a.attached[j] == b.attached[j]) {
      assert At(a.attached, j) == At(b.attached, j) || (AttachedOf(At(a.attached, j)) + AttachedOf(At(b.attached, j))) !! carried;
    }
  }

  lemma AttachmentRowsEqual(g: Gathered, a: Tables, b: Tables, carried: set<int>)
    requires Covers(g, a, b) && forall x :: x in carried ==> x !in g.attachments
    ensures RowsOf(a, carried) == RowsOf(b, carried)
  {
    forall x | x in carried ensures At(a.attachments, x) == At(b.attachments, x) {
      assert At(a.attachments, x) == At(b.attachments, x) || Contributes(g, AttachmentChange(x));
    }
    forall x ensures (x in RowsOf(a, carried) <==> x in RowsOf(b, carried)) && (x in RowsOf(a, carried) ==> a.attachments[x] == b.attachments[x]) {
      if x in carried { assert At(a.attachments, x) == At(b.attachments, x); }
    }
  }

  lemma SameAttachments(g: Gathered, a: Tables, b: Tables, media: set<int>, r: int)
    requires Outside(g, a, b, media, r)
    ensures RowsOf(a, Carried(a, r)) == RowsOf(b, Carried(b, r)) && Sharing(a, Carried(a, r)) == Sharing(b, Carried(b, r))
    ensures Carried(b, r) !! media
  {
    SameJoins(g, a, b, media, r);
    var carried := Carried(b, r);
    forall x | x in carried ensures x !in media && x !in g.attachments { Untouched(g, a, b, media, r, x); }
    hide Direct, Carried, Sharing, RowsOf;
    AttachmentRowsEqual(g, a, b, carried);
    forall j | At(a.attached, j) != At(b.attached, j) ensures (AttachedOf(At(a.attached, j)) + AttachedOf(At(b.attached, j))) !! carried {
      assert Contributes(g, AttachedChange(j, At(a.attached, j), At(b.attached, j)));
    }
    SharingEqual(a, b, carried);
  }

  lemma SameReplies(g: Gathered, a: Tables, b: Tables, media: set<int>, r: int)
    requires Outside(g, a, b, media, r)
    ensures Replies(a, GuidOf(At(a.messages, r))) == Replies(b, GuidOf(At(b.messages, r)))
  {
    SameRow(g, a, b, media, r);
    var guid := GuidOf(At(b.messages, r));
    if guid.Some? {
      assert guid.value in g.parents ==> r in WithGuid(b, g.guids + g.parents);
      assert guid.value !in g.parents;
      hide Direct;
      forall m ensures (m in Replies(a, guid) <==> m in Replies(b, guid)) && (m in Replies(a, guid) ==> a.messages[m] == b.messages[m]) {
        assert At(a.messages, m) == At(b.messages, m) || Contributes(g, MessageChange(m, At(a.messages, m), At(b.messages, m)));
      }
    }
  }

  lemma SameKey(g: Gathered, a: Tables, b: Tables, media: set<int>, r: int, h: Option<int>)
    requires Outside(g, a, b, media, r) && r in b.messages && (h == b.messages[r].handle || h == b.messages[r].other)
    ensures KeyOf(a, h) == KeyOf(b, h)
  {
    if h.Some? {
      assert h.value in g.handles ==> r in WithHandle(b, g.handles);
      assert At(a.handles, h.value) != At(b.handles, h.value) ==>
        Contributes(g, HandleChange(h.value, At(a.handles, h.value), At(b.handles, h.value)));
    }
  }

  lemma ChatsOf(t: Tables, r: int, c: int)
    ensures c in ChatGuids(t, r) <==> c in t.chats && exists j :: j in LinksOf(t.links, r) && LinksOf(t.links, r)[j].chat == c
  {
    if j :| j in t.links && t.links[j].message == r && t.links[j].chat == c {
      assert j in LinksOf(t.links, r) && LinksOf(t.links, r)[j].chat == c;
    }
    if j :| j in LinksOf(t.links, r) && LinksOf(t.links, r)[j].chat == c {
      assert j in t.links && t.links[j].message == r && t.links[j].chat == c;
    }
  }

  lemma SameChats(g: Gathered, a: Tables, b: Tables, media: set<int>, r: int)
    requires Outside(g, a, b, media, r)
    ensures ChatGuids(a, r) == ChatGuids(b, r)
  {
    SameLinks(g, a, b, media, r);
    forall c | exists j :: j in LinksOf(b.links, r) && LinksOf(b.links, r)[j].chat == c
      ensures (c in a.chats <==> c in b.chats) && (c in b.chats ==> a.chats[c].guid == b.chats[c].guid)
    {
      var j :| j in LinksOf(b.links, r) && LinksOf(b.links, r)[j].chat == c;
      assert c in g.chats ==> r in InChats(b, g.chats);
      assert At(a.chats, c) != At(b.chats, c) ==> Contributes(g, ChatChange(c, At(a.chats, c), At(b.chats, c)));
    }
    hide Direct, Covers, Outside;
    ChatGuidsEqual(a, b, r);
  }

  lemma ChatGuidsEqual(a: Tables, b: Tables, r: int)
    requires LinksOf(a.links, r) == LinksOf(b.links, r)
    requires forall c :: (exists j :: j in LinksOf(b.links, r) && LinksOf(b.links, r)[j].chat == c) ==>
      (c in a.chats <==> c in b.chats) && (c in b.chats ==> a.chats[c].guid == b.chats[c].guid)
    ensures ChatGuids(a, r) == ChatGuids(b, r)
  {
    hide LinksOf;
    forall c ensures (c in ChatGuids(a, r) <==> c in ChatGuids(b, r)) && (c in ChatGuids(b, r) ==> a.chats[c].guid == b.chats[c].guid) {
      ChatsOf(a, r, c);
      ChatsOf(b, r, c);
    }
  }

  lemma SameCandidates(g: Gathered, a: Tables, b: Tables, media: set<int>, r: int)
    requires Outside(g, a, b, media, r) && !Linked(b, r) && r in b.messages
    ensures Candidates(a, b.messages[r].ck) == Candidates(b, b.messages[r].ck)
  {
    var ck := b.messages[r].ck;
    if ck.Some? {
      var tail := CkIdentifier(ck.value);
      assert tail in g.identifiers ==> r in WithIdentifier(b, g.identifiers);
      assert tail !in g.identifiers;
      hide CkIdentifier, Direct, Outside;
      CandidatesEqual(g, a, b, ck);
    }
  }

  lemma CandidatesEqual(g: Gathered, a: Tables, b: Tables, ck: Option<string>)
    requires Covers(g, a, b) && ck.Some? && CkIdentifier(ck.value) !in g.identifiers
    ensures Candidates(a, ck) == Candidates(b, ck)
  {
    hide CkIdentifier;
    forall c ensures (c in Candidates(a, ck) <==> c in Candidates(b, ck))
                     && (c in Candidates(a, ck) ==> (a.chats[c].guid, a.chats[c].service) == (b.chats[c].guid, b.chats[c].service))
    {
      assert At(a.chats, c) == At(b.chats, c) || Contributes(g, ChatChange(c, At(a.chats, c), At(b.chats, c)));
    }
  }

  /** A message outside the selection reads the same before and after, and none of its files was reported changed. */
  lemma Frame(changes: seq<Change>, a: Tables, b: Tables, media: set<int>, r: int)
    requires IsDiff(changes, a, b) && r !in Routed(b, GatherAll(changes), media).rows
    ensures InputsOf(a, r) == InputsOf(b, r) && Carried(b, r) !! media
  {
    var g := GatherAll(changes);
    DiffCovers(changes, a, b);
    assert Outside(g, a, b, media, r);
    hide Outside, Covers, Direct, LinksOf, JoinsOf, RowsOf, Sharing, Replies, ChatGuids, Candidates, Carried, Linked, KeyOf, Selected, GatherAll;
    SameRow(g, a, b, media, r);
    SameLinks(g, a, b, media, r);
    SameJoins(g, a, b, media, r);
    SameAttachments(g, a, b, media, r);
    SameReplies(g, a, b, media, r);
    SameChats(g, a, b, media, r);
    if r in b.messages {
      assert At(a.messages, r) == Some(b.messages[r]);
      SameKey(g, a, b, media, r, b.messages[r].handle);
      SameKey(g, a, b, media, r, b.messages[r].other);
      if !Linked(b, r) { SameCandidates(g, a, b, media, r); }
    }
    InputsFrom(a, b, r);
  }

  lemma NoKey(a: Tables, b: Tables)
    ensures KeyOf(a, None) == KeyOf(b, None) && Candidates(a, None) == Candidates(b, None)
  {
  }

  lemma InputsFrom(a: Tables, b: Tables, r: int)
    requires At(a.messages, r) == At(b.messages, r) && LinksOf(a.links, r) == LinksOf(b.links, r) && Linked(a, r) == Linked(b, r)
    requires LinksOf(a.recoverable, r) == LinksOf(b.recoverable, r) && JoinsOf(a, r) == JoinsOf(b, r)
    requires RowsOf(a, Carried(a, r)) == RowsOf(b, Carried(b, r)) && Sharing(a, Carried(a, r)) == Sharing(b, Carried(b, r))
    requires Replies(a, GuidOf(At(a.messages, r))) == Replies(b, GuidOf(At(b.messages, r))) && ChatGuids(a, r) == ChatGuids(b, r)
    requires r in b.messages ==> KeyOf(a, b.messages[r].handle) == KeyOf(b, b.messages[r].handle)
                                 && KeyOf(a, b.messages[r].other) == KeyOf(b, b.messages[r].other)
                                 && (!Linked(b, r) ==> Candidates(a, b.messages[r].ck) == Candidates(b, b.messages[r].ck))
    ensures InputsOf(a, r) == InputsOf(b, r)
  {
    NoKey(a, b);
    hide LinksOf, JoinsOf, RowsOf, Sharing, Replies, ChatGuids, Candidates, Carried, Linked, KeyOf;
  }

  // ---- Keys ----

  /** The old guids that were remembered are those of exactly the changed messages. */
  ghost predicate Remembers(g: Gathered, changes: seq<Change>, a: Tables) {
    && (forall id :: id in g.oldGuids ==> id in g.selected && g.oldGuids[id] == GuidOf(At(a.messages, id)))
    && g.oldCk.Keys == g.oldGuids.Keys && (forall id :: id in g.oldCk ==> g.oldCk[id] == CkOf(At(a.messages, id)))
    && (forall i :: 0 <= i < |changes| && changes[i].MessageChange? ==> changes[i].id in g.oldGuids)
  }

  lemma {:induction false} AllRemembered(changes: seq<Change>, a: Tables, b: Tables)
    requires forall i :: 0 <= i < |changes| ==> Genuine(changes[i], a, b)
    ensures Remembers(GatherAll(changes), changes, a)
    decreases |changes|
  {
    if changes != [] {
      var front, last := changes[..|changes| - 1], changes[|changes| - 1];
      AllRemembered(front, a, b);
      RememberMore(GatherAll(front), front, last, a, b);
      assert changes == front + [last];
    }
  }

  lemma RememberMore(g: Gathered, front: seq<Change>, c: Change, a: Tables, b: Tables)
    requires Remembers(g, front, a) && Genuine(c, a, b)
    ensures Remembers(Gather(g, c), front + [c], a)
  {
    hide GuidOf, ParentOf, CkOf, Known, LinkedTo, AttachedTo, AttachedOf, IdentifierOf, HandleMoved, ChatRenamed, ChatMoved;
    var h, more := Gather(g, c), front + [c];
    forall i | 0 <= i < |more| && more[i].MessageChange? ensures more[i].id in h.oldGuids {
      if i < |front| { assert front[i] == more[i]; }
    }
    assert g.selected <= h.selected;
  }

  /** The old keys are exactly the old guids of the selected rows. */
  lemma OldKeysExact(changes: seq<Change>, a: Tables, b: Tables, media: set<int>, key: string)
    requires IsDiff(changes, a, b)
    ensures var sel := Routed(b, GatherAll(changes), media);
            key in sel.oldKeys <==> exists m :: m in sel.rows && m in a.messages && a.messages[m].guid == Some(key)
  {
    var g := GatherAll(changes);
    AllRemembered(changes, a, b);
    SelectedGathered(b, g, media);
    hide Selected, GatherAll, GuidsOf, Inference, OldKeys;
    var rows := Selected(b, g, media);
    if key in OldKeys(b, g, rows) { OldKeyHeld(changes, g, a, b, rows, key); }
    if m :| m in rows && m in a.messages && a.messages[m].guid == Some(key) { OldKeyFound(changes, g, a, b, rows, m); }
  }

  lemma OldKeyHeld(changes: seq<Change>, g: Gathered, a: Tables, b: Tables, rows: set<int>, key: string)
    requires IsDiff(changes, a, b) && Remembers(g, changes, a) && g.selected <= rows && key in OldKeys(b, g, rows)
    ensures exists m :: m in rows && m in a.messages && a.messages[m].guid == Some(key)
  {
    if key in KnownAt(g.oldGuids, g.oldGuids.Keys) {
      var m :| m in g.oldGuids && g.oldGuids[m].Some? && g.oldGuids[m].value == key;
      assert m in rows && m in a.messages && a.messages[m].guid == Some(key);
    } else {
      hide IsDiff, Remembers;
      var m :| m in rows && m in b.messages && m !in g.oldGuids && b.messages[m].guid == Some(key);
      Unremembered(changes, g, a, b, m);
      assert m in rows && m in a.messages && a.messages[m].guid == Some(key);
    }
  }

  lemma OldKeyFound(changes: seq<Change>, g: Gathered, a: Tables, b: Tables, rows: set<int>, m: int)
    requires IsDiff(changes, a, b) && Remembers(g, changes, a) && m in rows && m in a.messages && a.messages[m].guid.Some?
    ensures a.messages[m].guid.value in OldKeys(b, g, rows)
  {
    hide IsDiff;
    if m in g.oldGuids { assert a.messages[m].guid.value in KnownAt(g.oldGuids, g.oldGuids.Keys); }
    else { Unremembered(changes, g, a, b, m); }
  }

  lemma SelectedGathered(t: Tables, g: Gathered, media: set<int>)
    ensures g.selected <= Selected(t, g, media)
  {
  }

  lemma Unremembered(changes: seq<Change>, g: Gathered, a: Tables, b: Tables, m: int)
    requires IsDiff(changes, a, b) && Remembers(g, changes, a)
    ensures At(a.messages, m) == At(b.messages, m) || m in g.oldGuids
  {
    if At(a.messages, m) != At(b.messages, m) {
      var i :| 0 <= i < |changes| && changes[i] == MessageChange(m, At(a.messages, m), At(b.messages, m));
      assert changes[i].id in g.oldGuids;
    }
  }

  /** The selection is closed under equal guid, in the new tables and in the old ones. */
  lemma ClosedUnderGuid(changes: seq<Change>, a: Tables, b: Tables, media: set<int>, m: int, n: int)
    requires IsDiff(changes, a, b) && m in Routed(b, GatherAll(changes), media).rows
    ensures m in b.messages && n in b.messages && b.messages[m].guid.Some? && b.messages[m].guid == b.messages[n].guid
            ==> n in Routed(b, GatherAll(changes), media).rows
    ensures m in a.messages && n in a.messages && a.messages[m].guid.Some? && a.messages[m].guid == a.messages[n].guid
            ==> n in Routed(b, GatherAll(changes), media).rows
  {
    var g := GatherAll(changes);
    var direct := Direct(b, g, media);
    DiffCovers(changes, a, b);
    if m in b.messages && n in b.messages && b.messages[m].guid.Some? && b.messages[m].guid == b.messages[n].guid {
      GuidClosed(b, g, media, m, n);
    }
    if m in a.messages && n in a.messages && a.messages[m].guid.Some? && a.messages[m].guid == a.messages[n].guid {
      var key := a.messages[m].guid.value;
      if At(a.messages, n) != At(b.messages, n) {
        assert Contributes(g, MessageChange(n, At(a.messages, n), At(b.messages, n)));
        assert n in g.selected;
      } else if At(a.messages, m) != At(b.messages, m) {
        assert Contributes(g, MessageChange(m, At(a.messages, m), At(b.messages, m)));
        assert key in g.guids && n in WithGuid(b, g.guids + g.parents);
      } else {
        GuidClosed(b, g, media, m, n);
      }
    }
  }

  lemma GuidClosed(t: Tables, g: Gathered, media: set<int>, m: int, n: int)
    requires m in Selected(t, g, media) && m in t.messages && n in t.messages && t.messages[m].guid.Some? && t.messages[m].guid == t.messages[n].guid
    ensures n in Selected(t, g, media)
  {
    var direct := Direct(t, g, media);
    hide Direct;
    var key := t.messages[m].guid.value;
    if m !in direct {
      assert m in WithGuid(t, GuidsOf(t, direct));
      assert key in GuidsOf(t, direct);
    }
    assert n in WithGuid(t, GuidsOf(t, direct));
  }

  /** A unit key outside the old and new keys has the same rows before and after, each with the same inputs. */
  lemma UnitsCovered(changes: seq<Change>, a: Tables, b: Tables, media: set<int>, key: string, m: int)
    requires IsDiff(changes, a, b)
    requires var sel := Routed(b, GatherAll(changes), media); key !in sel.oldKeys && key !in sel.newKeys
    ensures (m in a.messages && a.messages[m].guid == Some(key)) <==> (m in b.messages && b.messages[m].guid == Some(key))
    ensures m in b.messages && b.messages[m].guid == Some(key) ==> InputsOf(a, m) == InputsOf(b, m) && Carried(b, m) !! media
  {
    var sel := Routed(b, GatherAll(changes), media);
    OldKeysExact(changes, a, b, media, key);
    assert m in sel.rows && m in b.messages && b.messages[m].guid == Some(key) ==> key in sel.newKeys;
    if m !in sel.rows {
      Frame(changes, a, b, media, m);
      assert InputsOf(a, m).row == InputsOf(b, m).row;
    }
  }

  // ---- Inferred chats ----

  /** Message `r` has no chat of its own, and `ck` decides which one is inferred, or which stub stands for it. */
  predicate Holds(t: Tables, r: int, ck: string) {
    r in t.messages && t.messages[r].ck == Some(ck) && !Linked(t, r)
  }

  /** A key that is not reported is held by the same rows before and after, and stands for the same chats. */
  lemma UnreportedKeyStays(changes: seq<Change>, a: Tables, b: Tables, media: set<int>, ck: string, r: int)
    requires IsDiff(changes, a, b) && ck !in Routed(b, GatherAll(changes), media).inferred
    ensures Holds(a, r, ck) <==> Holds(b, r, ck)
    ensures Holds(b, r, ck) ==> r !in Routed(b, GatherAll(changes), media).rows && Candidates(a, Some(ck)) == Candidates(b, Some(ck))
  {
    var g := GatherAll(changes);
    var rows := Selected(b, g, media);
    AllRemembered(changes, a, b);
    hide Selected, GatherAll;
    if r in a.messages && a.messages[r].ck == Some(ck) {
      assert r in g.oldCk ==> ck in KnownAt(g.oldCk, g.oldCk.Keys);
      Unremembered(changes, g, a, b, r);
      assert At(a.messages, r) == At(b.messages, r) && r in b.messages;
    }
    if r in b.messages && b.messages[r].ck == Some(ck) {
      assert r in rows ==> ck in CksOf(b, rows);
      Frame(changes, a, b, media, r);
      FrameHolds(a, b, r);
    }
  }

  lemma FrameHolds(a: Tables, b: Tables, r: int)
    requires InputsOf(a, r) == InputsOf(b, r)
    ensures At(a.messages, r) == At(b.messages, r) && Linked(a, r) == Linked(b, r)
    ensures r in b.messages && !Linked(b, r) ==> Candidates(a, b.messages[r].ck) == Candidates(b, b.messages[r].ck)
  {
    LinkedIs(a, r);
    LinkedIs(b, r);
    var x, y := InputsOf(a, r), InputsOf(b, r);
    assert x.row == y.row && x.links == y.links && x.inferred == y.inferred;
    hide LinksOf, Candidates, Linked;
  }

  lemma LinkMoved(g: Gathered, a: Tables, b: Tables, r: int)
    requires Covers(g, a, b) && Linked(a, r) != Linked(b, r)
    ensures r in g.linked && r in g.selected
  {
    if Linked(a, r) {
      var j :| j in a.links && a.links[j].message == r;
      assert At(a.links, j) != At(b.links, j) || Linked(b, r);
      assert Contributes(g, LinkChange(j, At(a.links, j), At(b.links, j)));
    } else {
      var j :| j in b.links && b.links[j].message == r;
      assert At(a.links, j) != At(b.links, j) || Linked(a, r);
      assert Contributes(g, LinkChange(j, At(a.links, j), At(b.links, j)));
    }
  }

  /** The keys whose remaining holders are selected. */
  function Reopened(t: Tables, g: Gathered): set<string> { g.stubs + CksOf(t, g.linked) + KnownAt(g.oldCk, g.linked) }

  lemma ReopenedSelects(t: Tables, g: Gathered, media: set<int>, ck: string, r: int)
    requires ck in Reopened(t, g) && Holds(t, r, ck)
    ensures r in Selected(t, g, media)
  {
    assert r in WithCk(t, Reopened(t, g));
  }

  /** When a row begins or ceases to hold a key, every row that holds it afterwards is selected. */
  lemma HoldersSelected(changes: seq<Change>, a: Tables, b: Tables, media: set<int>, ck: string, m: int, r: int)
    requires IsDiff(changes, a, b) && Holds(a, m, ck) != Holds(b, m, ck) && Holds(b, r, ck)
    ensures r in Routed(b, GatherAll(changes), media).rows
  {
    var g := GatherAll(changes);
    DiffCovers(changes, a, b);
    AllRemembered(changes, a, b);
    HolderReopens(changes, g, a, b, ck, m);
    ReopenedSelects(b, g, media, ck, r);
  }

  lemma HolderReopens(changes: seq<Change>, g: Gathered, a: Tables, b: Tables, ck: string, m: int)
    requires IsDiff(changes, a, b) && Covers(g, a, b) && Remembers(g, changes, a) && Holds(a, m, ck) != Holds(b, m, ck)
    ensures ck in Reopened(b, g)
  {
    var was, now := At(a.messages, m), At(b.messages, m);
    if CkOf(was) != CkOf(now) || was.None? || now.None? {
      assert Contributes(g, MessageChange(m, was, now));
      assert ck in Known(CkOf(was)) + Known(CkOf(now));
    } else {
      LinkMoved(g, a, b, m);
      assert ck in CksOf(b, g.linked);
    }
  }

  /** Rows still hold the key, and none of them is selected, although its stub chat is withdrawn. */
  ghost predicate Forsaken(t: Tables, sel: Selection, ck: string) {
    && ck in sel.inferred && (exists r :: Holds(t, r, ck)) && (forall r :: Holds(t, r, ck) ==> r !in sel.rows)
  }

  predicate Carries(t: Tables, m: int, ck: string) { m in t.messages && t.messages[m].ck == Some(ck) }

  /** Row `m` carries the key but has a chat of its own, and no row that holds the key has its guid. */
  ghost predicate Decoy(t: Tables, m: int, ck: string) {
    && Carries(t, m, ck) && Linked(t, m)
    && forall r :: Holds(t, r, ck) && t.messages[m].guid.Some? ==> t.messages[r].guid != t.messages[m].guid
  }

  ghost predicate Exposed(t: Tables, ck: string) {
    (exists r :: Holds(t, r, ck)) && exists m :: Decoy(t, m, ck)
  }

  /** The change from `a` to `b`, with any files reported changed, forsakes the key. */
  ghost predicate Forsakes(changes: seq<Change>, a: Tables, b: Tables, media: set<int>, ck: string) {
    IsDiff(changes, a, b) && Forsaken(b, Routed(b, GatherAll(changes), media), ck)
  }

  /** Whatever changed, a key that is forsaken has a decoy. */
  lemma ForsakenHasDecoy(changes: seq<Change>, a: Tables, b: Tables, media: set<int>, ck: string)
    requires Forsakes(changes, a, b, media, ck)
    ensures Exposed(b, ck)
  {
    var g := GatherAll(changes);
    DiffCovers(changes, a, b);
    AllRemembered(changes, a, b);
    hide GatherAll, Selected, Linked;
    var r :| Holds(b, r, ck);
    assert ck !in Reopened(b, g) by { if ck in Reopened(b, g) { ReopenedSelects(b, g, media, ck, r); } }
    var m := Carrier(changes, g, a, b, media, ck);
    assert !Holds(b, m, ck);
    forall n | Holds(b, n, ck) && b.messages[m].guid.Some? ensures b.messages[n].guid != b.messages[m].guid {
      if b.messages[n].guid == b.messages[m].guid { GuidClosed(b, g, media, m, n); }
    }
    assert Decoy(b, m, ck);
  }

  /** A key of the new tables can be forsaken, by some change into them, if and only if it is held and has a decoy. */
  lemma KeyForsaken(b: Tables, ck: string)
    ensures (exists changes, a, media :: Forsakes(changes, a, b, media, ck)) <==> Exposed(b, ck)
  {
    hide Forsakes, Decoy, Holds;
    if changes, a, media :| Forsakes(changes, a, b, media, ck) {
      ForsakenHasDecoy(changes, a, b, media, ck);
    }
    if Exposed(b, ck) {
      var m :| Decoy(b, m, ck);
      var k := Unused(b.recoverable.Keys);
      DecoyForsakes(b, m, k, ck);
    }
  }

  /** A row taken out of the recoverable messages is enough. */
  lemma DecoyForsakes(b: Tables, m: int, k: int, ck: string)
    requires (exists r :: Holds(b, r, ck)) && Decoy(b, m, ck) && k !in b.recoverable
    ensures Forsakes([RecoverableChange(k, Some(Link(0, m, "")), None)], b.(recoverable := b.recoverable[k := Link(0, m, "")]), b, {}, ck)
  {
    var a := b.(recoverable := b.recoverable[k := Link(0, m, "")]);
    var c := RecoverableChange(k, Some(Link(0, m, "")), None);
    var g := GatherAll([c]);
    assert [c][..0] == [] && GatherAll([]) == Nothing() && g == Gather(Nothing(), c);
    assert IsDiff([c], a, b) by { assert [c][0] == c && c in [c]; }
    SelectedAround(b, g, m);
    assert ck in CksOf(b, Selected(b, g, {}));
    hide Selected, GatherAll, IsDiff;
  }

  lemma Unused(s: set<int>) returns (k: int)
    ensures k !in s
  {
    var sorted := Ascend(s);
    k := if sorted == [] then 0 else sorted[|sorted| - 1] + 1;
    assert forall i :: 0 <= i < |sorted| ==> sorted[i] < k;
  }

  /** A reported key that no row began or ceased to hold is carried by a selected row. */
  lemma Carrier(changes: seq<Change>, g: Gathered, a: Tables, b: Tables, media: set<int>, ck: string) returns (m: int)
    requires IsDiff(changes, a, b) && Covers(g, a, b) && Remembers(g, changes, a)
    requires ck in Inference(b, g, Selected(b, g, media)) && ck !in Reopened(b, g)
    ensures Carries(b, m, ck) && m in Selected(b, g, media)
  {
    SelectedGathered(b, g, media);
    hide Selected;
    var rows := Selected(b, g, media);
    forall n | n in g.oldCk && g.oldCk[n] == Some(ck) ensures Carries(b, n, ck) && n in rows {
      var was, now := At(a.messages, n), At(b.messages, n);
      assert was != now ==> Contributes(g, MessageChange(n, was, now));
      assert CkOf(was) == Some(ck) && n in g.selected;
    }
    m :| Carries(b, m, ck) && m in rows;
  }

  /** Nothing was gathered but row `m` and guids. */
  predicate OnlyGuids(g: Gathered, m: int) {
    && g.selected == {m} && g.handles == {} && g.chats == {} && g.attachments == {} && g.identifiers == {}
    && g.stubs == {} && g.linked == {} && g.presence == {}
  }

  lemma SelectedAround(t: Tables, g: Gathered, m: int)
    requires OnlyGuids(g, m) && m in t.messages
    ensures forall r :: r in Selected(t, g, {}) <==>
      r == m || (r in t.messages && t.messages[r].guid.Some? && t.messages[r].guid.value in g.guids + g.parents + Known(t.messages[m].guid))
  {
    hide CkIdentifier, Linked;
    var direct := Direct(t, g, {});
    assert Touched(t, g, {}) == {} && CksOf(t, {}) == {} && KnownAt(g.oldCk, {}) == {};
    assert forall r :: r in direct <==> r == m || r in WithGuid(t, g.guids + g.parents);
    hide Direct;
    forall key ensures key in GuidsOf(t, direct) ==> key in g.guids + g.parents + Known(t.messages[m].guid) {}
    assert t.messages[m].guid.Some? ==> t.messages[m].guid.value in GuidsOf(t, direct);
  }

  /** Only the content of message row `m` differs, not its guid, parent, handles or key. */
  ghost predicate Edited(a: Tables, b: Tables, m: int) {
    && m in a.messages && m in b.messages && a.messages[m] != b.messages[m]
    && a == b.(messages := b.messages[m := b.messages[m].(rest := a.messages[m].rest)])
  }

  /** The row itself, and the rows with its guid or its parent's. */
  predicate Near(t: Tables, m: int, r: int)
    requires m in t.messages
  {
    r == m || (r in t.messages && t.messages[r].guid.Some? && t.messages[r].guid in {t.messages[m].guid, t.messages[m].parent})
  }

  /** Near the edited row somebody carries the key with a chat of its own, and everybody that holds it is elsewhere. */
  ghost predicate EditExposes(t: Tables, m: int, ck: string)
    requires m in t.messages
  {
    && (exists r :: Holds(t, r, ck)) && (forall r :: Holds(t, r, ck) ==> !Near(t, m, r))
    && (exists n :: Carries(t, n, ck) && Linked(t, n) && Near(t, m, n))
  }

  lemma EditIsOneChange(changes: seq<Change>, a: Tables, b: Tables, m: int)
    requires Edited(a, b, m) && IsDiff(changes, a, b)
    ensures changes != [] && forall i :: 0 <= i < |changes| ==> changes[i] == MessageChange(m, Some(a.messages[m]), Some(b.messages[m]))
  {
    assert At(a.messages, m) != At(b.messages, m);
    forall i | 0 <= i < |changes| ensures changes[i] == MessageChange(m, Some(a.messages[m]), Some(b.messages[m])) {
      assert Genuine(changes[i], a, b);
      assert forall id :: id != m ==> At(a.messages, id) == At(b.messages, id);
    }
  }

  lemma {:induction false} EditGathers(changes: seq<Change>, m: int, was: Message, now: Message)
    requires was == now.(rest := was.rest) && forall i :: 0 <= i < |changes| ==> changes[i] == MessageChange(m, Some(was), Some(now))
    ensures var g := GatherAll(changes);
            && (if changes == [] then g == Nothing() else OnlyGuids(g, m) && g.guids == Known(now.guid) && g.parents == Known(now.parent))
            && (forall n :: n in g.oldCk ==> n == m && g.oldCk[n] == now.ck)
    decreases |changes|
  {
    if changes != [] {
      EditGathers(changes[..|changes| - 1], m, was, now);
    }
  }

  /** An edit of one row forsakes a key under exactly this condition on the new tables. */
  lemma EditForsakes(changes: seq<Change>, a: Tables, b: Tables, m: int, ck: string)
    requires Edited(a, b, m) && IsDiff(changes, a, b)
    ensures Forsakes(changes, a, b, {}, ck) <==> EditExposes(b, m, ck)
  {
    var g := GatherAll(changes);
    EditIsOneChange(changes, a, b, m);
    EditGathers(changes, m, a.messages[m], b.messages[m]);
    SelectedAround(b, g, m);
    hide Selected, GatherAll, IsDiff, Linked, Forsaken, EditExposes;
    NearForsaken(b, g, m, ck);
  }

  lemma NearForsaken(t: Tables, g: Gathered, m: int, ck: string)
    requires m in t.messages && forall r :: r in Selected(t, g, {}) <==> Near(t, m, r)
    requires forall n :: n in g.oldCk ==> n == m && g.oldCk[n] == t.messages[m].ck
    ensures Forsaken(t, Routed(t, g, {}), ck) <==> EditExposes(t, m, ck)
  {
    hide Selected, Linked, Near;
    var rows := Selected(t, g, {});
    assert m in rows by { NearSelf(t, m); }
    assert forall key :: key in KnownAt(g.oldCk, g.oldCk.Keys) ==> key in CksOf(t, rows);
    assert ck in Inference(t, g, rows) <==> exists n :: Carries(t, n, ck) && Near(t, m, n);
    assert forall n :: Carries(t, n, ck) ==> Linked(t, n) || Holds(t, n, ck);
  }

  lemma NearSelf(t: Tables, m: int)
    requires m in t.messages
    ensures Near(t, m, m)
  {
  }

  /** The difference that an edit makes. */
  lemma EditIsDiff(a: Tables, b: Tables, m: int)
    requires Edited(a, b, m)
    ensures IsDiff([MessageChange(m, Some(a.messages[m]), Some(b.messages[m]))], a, b)
  {
    var c := MessageChange(m, Some(a.messages[m]), Some(b.messages[m]));
    assert [c][0] == c && c in [c];
  }

  const STUB := "SMS;-;+1"

  function Carrying(guid: string, text: string): Message { Message(Some(guid), None, None, None, Some(STUB), text) }

  /** Row 1 has a chat of its own and row 2 has none; both carry the same key, and no chat has its identifier. */
  function TwoCarriers(text: string): Tables {
    Tables(map[1 := Carrying("g1", text), 2 := Carrying("g2", "")], map[], map[9 := Chat(Some("c9"), Some("chat"), Some("SMS"), "")], map[],
           map[7 := Link(9, 1, "")], map[], map[], map[])
  }

  /** An edit of row 1 alone withdraws the stub chat that row 2 stands on, and row 2 is not selected to emit it again. */
  lemma EditForsakesStub()
    ensures var a, b := TwoCarriers("x"), TwoCarriers("y");
            && Forsakes([MessageChange(1, Some(Carrying("g1", "x")), Some(Carrying("g1", "y")))], a, b, {}, STUB)
            && Holds(b, 2, STUB) && Candidates(b, Some(STUB)) == map[]
  {
    var a, b := TwoCarriers("x"), TwoCarriers("y");
    StubEdited();
    StubExposed();
    NoStubCandidates(b);
    assert a.messages[1] == Carrying("g1", "x") && b.messages[1] == Carrying("g1", "y");
    hide *;
    EditIsDiff(a, b, 1);
    EditForsakes([MessageChange(1, Some(a.messages[1]), Some(b.messages[1]))], a, b, 1, STUB);
  }

  lemma StubEdited()
    ensures Edited(TwoCarriers("x"), TwoCarriers("y"), 1)
  {
    assert "x"[0] != "y"[0];
  }

  lemma StubExposed()
    ensures EditExposes(TwoCarriers("y"), 1, STUB) && Holds(TwoCarriers("y"), 2, STUB)
  {
    var b := TwoCarriers("y");
    assert 7 in b.links && b.links[7].message == 1;
    assert Linked(b, 1) && !Linked(b, 2);
    hide Linked;
    assert "g1"[1] != "g2"[1];
    assert Carries(b, 1, STUB) && Near(b, 1, 1) && Holds(b, 2, STUB);
  }

  lemma NoStubCandidates(t: Tables)
    requires t.chats == map[9 := Chat(Some("c9"), Some("chat"), Some("SMS"), "")]
    ensures Candidates(t, Some(STUB)) == map[]
  {
    TailEnds(STUB);
    hide CkIdentifier;
    assert "chat"[|"chat"| - 1] != STUB[|STUB| - 1];
  }

  /** The identifier of a key is an end of it. */
  lemma TailEnds(ck: string)
    ensures CkIdentifier(ck) == "" || (ck != "" && CkIdentifier(ck)[|CkIdentifier(ck)| - 1] == ck[|ck| - 1])
  {
    hide Instr;
  }

  // ---- Header tables ----

  ghost predicate HeadersFollow(g: Gathered, changes: seq<Change>) {
    && ("handle" in g.headers <==> exists i :: 0 <= i < |changes| && changes[i].HandleChange?)
    && ("chat" in g.headers <==> exists i :: 0 <= i < |changes| && changes[i].ChatChange?)
    && ("chat_handle_join" in g.headers <==> exists i :: 0 <= i < |changes| && changes[i].MemberChange?)
    && "message.ck_chat_id" !in g.headers
  }

  lemma {:induction false} AllHeaders(changes: seq<Change>)
    ensures HeadersFollow(GatherAll(changes), changes)
    decreases |changes|
  {
    if changes != [] {
      var n := |changes| - 1;
      AllHeaders(changes[..n]);
      HeadersMore(GatherAll(changes[..n]), changes[..n], changes[n]);
      assert changes == changes[..n] + [changes[n]];
    }
  }

  lemma HeadersMore(g: Gathered, front: seq<Change>, c: Change)
    requires HeadersFollow(g, front)
    ensures HeadersFollow(Gather(g, c), front + [c])
  {
    hide Known, GuidOf, ParentOf, CkOf, LinkedTo, AttachedTo, AttachedOf, IdentifierOf, HandleMoved, ChatRenamed, ChatMoved;
    var more := front + [c];
    assert more[|front|] == c && forall i :: 0 <= i < |front| ==> more[i] == front[i];
  }

  /** A header table is reported exactly when one of its rows changed. */
  lemma HeadersExact(changes: seq<Change>, a: Tables, b: Tables, media: set<int>)
    requires IsDiff(changes, a, b)
    ensures var sel := Routed(b, GatherAll(changes), media);
            && ("handle" in sel.headers <==> a.handles != b.handles)
            && ("chat" in sel.headers <==> a.chats != b.chats)
            && ("chat_handle_join" in sel.headers <==> a.members != b.members)
            && ("message.ck_chat_id" in sel.headers <==> sel.inferred != {} || GatherAll(changes).identifiers != {})
  {
    AllHeaders(changes);
    SomeRow(a.handles, b.handles);
    SomeRow(a.chats, b.chats);
    SomeRow(a.members, b.members);
    hide Selected, Inference, GatherAll, OldKeys, GuidsOf;
  }

  lemma SomeRow<T>(x: map<int, T>, y: map<int, T>)
    ensures x != y <==> exists id :: At(x, id) != At(y, id)
  {
    if forall id :: At(x, id) == At(y, id) {
      assert forall id :: id in x <==> At(x, id).Some?;
      assert forall id :: id in y <==> At(y, id).Some?;
      forall id | id in x ensures id in y && x[id] == y[id] { assert At(x, id) == At(y, id); }
      forall id | id in y ensures id in x { assert At(x, id) == At(y, id); }
      assert x == y;
    }
  }
}
