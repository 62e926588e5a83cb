/** Publishing a run (Engine.publish and its helpers, internal/service/engine.go:125-260). */
module Publication {
  import opened Collections
  import opened Chunks
  import opened Delivery
  import opened Publishing
  import X = Export
  import N = Names

  datatype Role = User | Assistant | OtherRole
  datatype MessageKind = Progress | FinalAnswer | OtherKind

  // Input metadata of a message: absent, not decodable, or an envelope.
  datatype Metadata = NoMetadata | Malformed | Envelope(initial: bool, render: Render)

  datatype Message = Message(
    id: Id, run: Id, role: Role, kind: MessageKind, position: int, text: string, metadata: Metadata)

  datatype Manifest = Unreadable | Readable(output: X.Output)

  datatype Hook = Hook(afterRun: bool, completed: bool, complete: bool, output: Manifest)

  // `failure` is delivery.Failure of the run, "" for none; `expected` the identity and limits its result must meet.
  datatype RunView = RunView(
    id: Id, session: Id, terminal: bool, final: Id, failure: string, agentless: bool, hooks: seq<Hook>,
    expected: X.Request, messages: seq<Message>)

  datatype Item = Item(message: MessageKey, text: string, files: seq<Artifact>)

  const FAILED_TEXT := "Could not deliver the result attachments."
  const EMPTY_TEXT := "Run finished without a text answer or files."

  /** delivery.Parts. */
  function Parts(s: Scope, session: Id, run: RunKey, item: Item, render: Render): (parts: seq<Part>)
    ensures |parts| == |PartTexts(item.text, render.maxChars, render.version)|
    ensures forall i :: 0 <= i < |parts| ==>
              && parts[i].text == PartTexts(item.text, render.maxChars, render.version)[i]
              && KeyOf(parts[i].receipt) == ReceiptKey(s.source, s.workflow, session, run, item.message, i)
  {
    var chunks := PartTexts(item.text, render.maxChars, render.version);
    seq(|chunks|, i requires 0 <= i < |chunks| => PartAt(s, session, run, item, render, chunks, i))
  }

  lemma PartsAreWellFormed(s: Scope, session: Id, run: RunKey, item: Item, render: Render)
    ensures var parts := Parts(s, session, run, item, render);
            forall i :: 0 <= i < |parts| ==>
              && parts[i].receipt.attachments == (if i == 0 then item.files else [])
              && (s.root != 0 ==> WellFormed(s, parts[i]))
  {
  }

  /** What a part's receipt records for finding it again: its text, its place among all parts and how they were made. */
  lemma PartsRecord(s: Scope, session: Id, run: RunKey, item: Item, render: Render)
    ensures var parts := Parts(s, session, run, item, render);
            && Joined(seq(|parts|, i requires 0 <= i < |parts| => parts[i].text)) == item.text
            && forall i :: 0 <= i < |parts| ==>
                 && Same(parts[i].receipt, parts[0].receipt.(part := i)) && parts[i].receipt.message == item.message
                 && parts[i].receipt.hash == Sha256(parts[i].text)
                 && parts[i].receipt.parts == |parts| && parts[i].receipt.render == render.version
                 && parts[i].receipt.attachments == (if i == 0 then item.files else [])
                 && parts[i].receipt.triggers == [] && parts[i].receipt.versions == []
                 && parts[i].receipt.input == None && parts[i].receipt.revision == 0
  {
    var parts := Parts(s, session, run, item, render);
    assert seq(|parts|, i requires 0 <= i < |parts| => parts[i].text) ==
           PartTexts(item.text, render.maxChars, render.version);
  }

  function PartAt(s: Scope, session: Id, run: RunKey, item: Item, render: Render, chunks: seq<string>, i: nat): Part
    requires i < |chunks|
  {
    Part(Receipt(s.source, s.workflow, session, run, item.message, i, |chunks|, Sha256(chunks[i]),
                 if i == 0 then item.files else [], render.version, [], None, 0, []), chunks[i])
  }

  /** The render contract of a run: its first initial envelope, unless undecodable metadata comes first. */
  function Contract(messages: seq<Message>, run: Id): Option<Render> {
    if messages == [] then
      None
    else
      var m := messages[0];
      if m.run == run && m.role.User? && m.metadata.Malformed? then
        None
      else if m.run == run && m.role.User? && m.metadata.Envelope? && m.metadata.initial then
        Some(m.metadata.render)
      else
        Contract(messages[1..], run)
  }

  method FindContract(messages: seq<Message>, run: Id) returns (render: Option<Render>)
    ensures render == Contract(messages, run)
  {
    for i := 0 to |messages|
      invariant Contract(messages[i..], run) == Contract(messages, run)
    {
      var m := messages[i];
      if m.run == run && m.role.User? {
        if m.metadata.Malformed? {
          return None;
        }
        if m.metadata.Envelope? && m.metadata.initial {
          return Some(m.metadata.render);
        }
      }
    }
    return None;
  }

  predicate IsResult(h: Hook) {
    h.afterRun && h.completed && h.complete
  }

  predicate Usable(run: RunView, m: Manifest) {
    m.Readable? && m.output.stage.Ready? && X.ConnectorAccepts(m.output, run.expected)
  }

  /** hookOutput: the files of the run's first complete result, None when there is no usable one. */
  function HookOutput(run: RunView, hooks: seq<Hook>): Option<seq<Artifact>> {
    if run.agentless then
      Some([])
    else if hooks == [] then
      None
    else if IsResult(hooks[0]) then
      if Usable(run, hooks[0].output) then Some(hooks[0].output.output.files) else None
    else
      HookOutput(run, hooks[1..])
  }

  /** Every file of a usable result has been uploaded, is within the limits and is listed once. */
  lemma {:induction false} UsableFiles(run: RunView, hooks: seq<Hook>)
    requires HookOutput(run, hooks).Some?
    ensures var files := HookOutput(run, hooks).value;
            && (run.agentless ==> files == [])
            && (!run.agentless ==> |files| <= run.expected.maxFiles)
            && X.Distinct(files)
            && forall f :: f in files ==>
                 f.file != 0 && 0 <= f.size <= run.expected.maxBytes && f.name == N.GoName(f.name)
  {
    if !run.agentless && !IsResult(hooks[0]) {
      UsableFiles(run, hooks[1..]);
    }
  }

  method FindHookOutput(run: RunView) returns (files: Option<seq<Artifact>>)
    ensures files == HookOutput(run, run.hooks)
  {
    if run.agentless {
      return Some([]);
    }
    for i := 0 to |run.hooks|
      invariant HookOutput(run, run.hooks[i..]) == HookOutput(run, run.hooks)
    {
      var h := run.hooks[i];
      if IsResult(h) {
        if h.output.Unreadable? || !h.output.output.stage.Ready? {
          return None;
        }
        var valid := X.Validate(h.output.output, run.expected);
        return if valid then Some(h.output.output.files) else None;
      }
    }
    return None;
  }

  // --- the messages of a run in order of position ---

  function Inserted(sorted: seq<Message>, m: Message): seq<Message> {
    if sorted == [] || sorted[|sorted| - 1].position <= m.position then
      sorted + [m]
    else
      Inserted(sorted[..|sorted| - 1], m) + [sorted[|sorted| - 1]]
  }

  /** The stable sort of the history by position. */
  function ByPosition(messages: seq<Message>): seq<Message> {
    if messages == [] then [] else Inserted(ByPosition(messages[..|messages| - 1]), messages[|messages| - 1])
  }

  ghost predicate Ascending(messages: seq<Message>) {
    forall i, j :: 0 <= i < j < |messages| ==> messages[i].position <= messages[j].position
  }

  lemma {:induction false} InsertedMembers(sorted: seq<Message>, m: Message)
    ensures multiset(Inserted(sorted, m)) == multiset(sorted) + multiset{m}
  {
    if sorted != [] {
      var front, last := sorted[..|sorted| - 1], sorted[|sorted| - 1];
      assert sorted == front + [last];
      if last.position > m.position {
        InsertedMembers(front, m);
      }
    }
  }

  lemma {:induction false} InsertedSorts(sorted: seq<Message>, m: Message)
    requires Ascending(sorted)
    ensures Ascending(Inserted(sorted, m))
  {
    if sorted != [] && sorted[|sorted| - 1].position > m.position {
      var front, last := sorted[..|sorted| - 1], sorted[|sorted| - 1];
      InsertedSorts(front, m);
      InsertedMembers(front, m);
      var r := Inserted(front, m);
      forall k | 0 <= k < |r| ensures r[k].position <= last.position {
        assert r[k] in multiset(r);
        assert r[k] in front || r[k] == m;
      }
    }
  }

  lemma {:induction false} ByPositionSorts(messages: seq<Message>)
    ensures Ascending(ByPosition(messages)) && multiset(ByPosition(messages)) == multiset(messages)
  {
    if messages != [] {
      ByPositionSorts(messages[..|messages| - 1]);
      InsertedSorts(ByPosition(messages[..|messages| - 1]), messages[|messages| - 1]);
      InsertedMembers(ByPosition(messages[..|messages| - 1]), messages[|messages| - 1]);
      assert messages == messages[..|messages| - 1] + [messages[|messages| - 1]];
    }
  }

  // --- what a run should have in its thread ---

  function Files(run: RunView, stopped: bool): seq<Artifact> {
    if run.terminal && !stopped && HookOutput(run, run.hooks).Some? then HookOutput(run, run.hooks).value else []
  }

  /** What one message of the history contributes. */
  function MessageItem(run: RunView, render: Render, m: Message, files: seq<Artifact>): Option<Item> {
    if m.run != run.id || !m.role.Assistant? || m.position < 0 then
      None
    else if m.kind.Progress? then
      if render.commentary && m.text != "" then Some(Item(Answer(m.id), m.text, [])) else None
    else if !m.kind.FinalAnswer? || !run.terminal then
      None
    else
      var attached := if m.id == run.final then files else [];
      if m.text == "" && attached == [] then None else Some(Item(Answer(m.id), m.text, attached))
  }

  predicate IsAnswer(run: RunView, render: Render, m: Message, files: seq<Artifact>) {
    m.kind.FinalAnswer? && MessageItem(run, render, m, files).Some?
  }

  predicate HasAnswer(run: RunView, render: Render, messages: seq<Message>, files: seq<Artifact>) {
    exists m :: m in messages && IsAnswer(run, render, m, files)
  }

  lemma HasAnswerStep(run: RunView, render: Render, messages: seq<Message>, files: seq<Artifact>, i: nat)
    requires i < |messages|
    ensures HasAnswer(run, render, messages[..i + 1], files) <==>
            HasAnswer(run, render, messages[..i], files) || IsAnswer(run, render, messages[i], files)
  {
    assert messages[..i + 1] == messages[..i] + [messages[i]];
    if HasAnswer(run, render, messages[..i], files) {
      var m :| m in messages[..i] && IsAnswer(run, render, m, files);
      assert m in messages[..i + 1];
    } else if IsAnswer(run, render, messages[i], files) {
      assert messages[i] in messages[..i + 1];
    }
  }

  predicate Answered(run: RunView, render: Render, messages: seq<Message>, files: seq<Artifact>) {
    HasAnswer(run, render, messages, files) || (run.final == 0 && files != [])
  }

  function FilesItem(run: RunView, files: seq<Artifact>): Option<Item> {
    if run.terminal && run.final == 0 && files != [] then Some(Item(AttachmentsOnly, "", files)) else None
  }

  function ClosingItem(run: RunView, answered: bool, stopped: bool): Option<Item> {
    if !run.terminal then None
    else if run.failure != "" then Some(Item(RunStatus, run.failure, []))
    else if !answered && !stopped then Some(Item(EmptyResult, EMPTY_TEXT, []))
    else None
  }

  predicate ItemDone(
    s: Scope, run: RunView, render: Render, item: Option<Item>, mine: seq<Published>, files: map<Id, Id>, skip: bool)
  {
    item.Some? ==>
      || (skip && item.value.text == "")
      || forall i | 0 <= i < |Parts(s, run.session, Run(run.id), item.value, render)| ::
           Delivered(mine, files, Parts(s, run.session, Run(run.id), item.value, render)[i], skip)
  }

  /** Nothing in the thread contradicts the run, and its files are delivered or can still be attached. */
  ghost predicate RunOpen(s: Scope, run: RunView, mine: seq<Published>, files: map<Id, Id>) {
    var stopped := Notice(mine, AttachmentsFailed, Run(run.id));
    var contract := Contract(run.messages, run.id);
    && contract.Some? && s.root != 0 && DistinctMessages(ByPosition(run.messages))
    && var render, attached := contract.value, Files(run, stopped);
       && NoticeOpen(s, run, render, mine, stopped)
       && MessagesOpen(s, run, render, ByPosition(run.messages), 0, attached, mine, files, stopped)
       && ClosingOpen(s, run, render, attached, HasAnswer(run, render, ByPosition(run.messages), attached),
                      stopped || NoResult(run), mine, files, stopped)
  }

  /** The files of a finished run are given up for lack of a usable result. */
  predicate NoResult(run: RunView) {
    run.terminal && HookOutput(run, run.hooks).None?
  }

  ghost predicate ClosingOpen(
    s: Scope, run: RunView, render: Render, attached: seq<Artifact>, answered: bool, stopped: bool,
    mine: seq<Published>, files: map<Id, Id>, skip: bool)
  {
    && ItemOpen(s, run, render, FilesItem(run, attached), mine, files, skip)
    && ItemOpen(s, run, render, ClosingItem(run, answered || (run.final == 0 && attached != []), stopped), mine, files,
                skip)
  }

  ghost predicate MessagesDone(
    s: Scope, run: RunView, render: Render, messages: seq<Message>, attached: seq<Artifact>, mine: seq<Published>,
    files: map<Id, Id>, skip: bool)
  {
    forall m :: m in messages ==> ItemDone(s, run, render, MessageItem(run, render, m, attached), mine, files, skip)
  }

  /** The run is published: each message and closing notice is delivered part by part, with its files unless their
      delivery was given up, and giving up is itself recorded in the thread. */
  ghost predicate Settled(s: Scope, run: RunView, mine: seq<Published>, files: map<Id, Id>) {
    var stopped := Notice(mine, AttachmentsFailed, Run(run.id));
    var contract := Contract(run.messages, run.id);
    && contract.Some?
    && (run.terminal && !stopped ==> HookOutput(run, run.hooks).Some?)
    && var render, attached := contract.value, Files(run, stopped);
       && MessagesDone(s, run, render, ByPosition(run.messages), attached, mine, files, stopped)
       && ItemDone(s, run, render, FilesItem(run, attached), mine, files, stopped)
       && ItemDone(s, run, render, ClosingItem(run, Answered(run, render, ByPosition(run.messages), attached), stopped),
                   mine, files, stopped)
  }

  predicate Posted(mine: seq<Published>, key: ReceiptKey, part: nat) {
    Holding(mine, key.(part := part)) != []
  }

  lemma EarlierPosted(mine: seq<Published>, key: ReceiptKey, part: nat)
    requires PrefixClosed(mine) && part > 0 && Posted(mine, key, part)
    ensures Posted(mine, key, part - 1)
  {
    var k := key.(part := part);
    assert k.(part := k.part - 1) == key.(part := part - 1);
  }

  /** The parts of a message that are in the thread are always the first ones. */
  lemma {:induction false} PostedPrefix(mine: seq<Published>, key: ReceiptKey, count: nat) returns (n: nat)
    requires PrefixClosed(mine)
    ensures n <= count
    ensures forall i :: 0 <= i < count ==> (Posted(mine, key, i) <==> i < n)
  {
    hide *;
    if count == 0 {
      n := 0;
    } else {
      n := PostedPrefix(mine, key, count - 1);
      if Posted(mine, key, count - 1) {
        if count > 1 {
          EarlierPosted(mine, key, count - 1);
        }
        n := count;
      }
    }
  }

  /** What the posts of a delivered part say. */
  function Said(mine: seq<Published>, part: Part, skip: bool): string {
    if Find(mine, part, skip).One? then Find(mine, part, skip).found.post.message else ""
  }

  /** The posts of a delivered message, read in order, spell it out. */
  lemma DeliveredSpells(
    s: Scope, run: RunView, render: Render, item: Item, mine: seq<Published>, files: map<Id, Id>, skip: bool)
    requires ItemDone(s, run, render, Some(item), mine, files, skip) && item.text != ""
    ensures var parts := Parts(s, run.session, Run(run.id), item, render);
            Joined(seq(|parts|, i requires 0 <= i < |parts| => Said(mine, parts[i], skip))) == item.text
  {
    var parts := Parts(s, run.session, Run(run.id), item, render);
    var texts := PartTexts(item.text, render.maxChars, render.version);
    var said := seq(|parts|, i requires 0 <= i < |parts| => Said(mine, parts[i], skip));
    forall i | 0 <= i < |parts| ensures said[i] == texts[i] {
      assert Delivered(mine, files, parts[i], skip);
      assert Sha256(said[i]) == Sha256(texts[i]);
    }
    assert said == texts;
  }

  /** Nothing in the thread contradicts the item, nor its files unless they are given up. */
  ghost predicate ItemOpen(
    s: Scope, run: RunView, render: Render, item: Option<Item>, mine: seq<Published>, files: map<Id, Id>, skip: bool)
  {
    item.Some? ==> PartsOpen(mine, files, Parts(s, run.session, Run(run.id), item.value, render), 0, skip)
  }

  ghost predicate PartsOpen(mine: seq<Published>, files: map<Id, Id>, parts: seq<Part>, i: nat, skip: bool) {
    forall j :: i <= j < |parts| ==> PartOpen(mine, files, parts[j], skip)
  }

  /** Unless the files are given up already, nothing in the thread contradicts the notice that they are. */
  ghost predicate NoticeOpen(s: Scope, run: RunView, render: Render, mine: seq<Published>, skip: bool) {
    skip || PartsOpen(mine, map[], NoticeParts(s, run, render), 0, false)
  }

  function NoticeParts(s: Scope, run: RunView, render: Render): seq<Part> {
    Parts(s, run.session, Run(run.id), Item(AttachmentsFailed, FAILED_TEXT, []), render)
  }

  /** An item of its own: no repair and not the attachment notice. */
  predicate IsPlain(m: MessageKey) {
    !m.Repair? && m != AttachmentsFailed
  }

  /** The parts of one message: consecutive receipt keys, and files on the first one only. */
  ghost predicate Serial(parts: seq<Part>, key: ReceiptKey, files: seq<Artifact>) {
    forall j :: 0 <= j < |parts| ==>
      && KeyOf(parts[j].receipt) == key.(part := j)
      && parts[j].receipt.attachments == if j == 0 then files else []
  }

  function ItemKey(s: Scope, run: RunView, message: MessageKey): ReceiptKey {
    ReceiptKey(s.source, s.workflow, run.session, Run(run.id), message, 0)
  }

  lemma PartsAreSerial(s: Scope, run: RunView, render: Render, item: Item)
    ensures Serial(Parts(s, run.session, Run(run.id), item, render), ItemKey(s, run, item.message), item.files)
  {
    PartsAreWellFormed(s, run.session, Run(run.id), item, render);
  }

  lemma PartIsWellFormed(s: Scope, run: RunView, render: Render, item: Item, i: nat)
    requires i < |Parts(s, run.session, Run(run.id), item, render)|
    ensures var part := Parts(s, run.session, Run(run.id), item, render)[i];
            && KeyOf(part.receipt) == ItemKey(s, run, item.message).(part := i)
            && part.receipt.attachments == (if i == 0 then item.files else [])
            && (s.root != 0 ==> WellFormed(s, part))
  {
    PartsAreWellFormed(s, run.session, Run(run.id), item, render);
  }

  lemma NoticedIsOfMessage(before: seq<Published>, after: seq<Published>, key: ReceiptKey)
    requires Adds(before, after, OfNoticed(key))
    ensures Adds(before, after, OfMessage(key.session, key.run, key.message))
  {
    hide Adds;
    AddsWiden(before, after, OfNoticed(key), OfMessage(key.session, key.run, key.message));
  }

  lemma PartsOpenStay(
    before: seq<Published>, after: seq<Published>, files: map<Id, Id>, linked: map<Id, Id>, parts: seq<Part>,
    key: ReceiptKey, attached: seq<Artifact>, i: nat, skipped: bool, skip: bool)
    requires i < |parts| && PartsOpen(before, files, parts, i, skipped) && Serial(parts, key, attached)
    requires Adds(before, after, OfNoticed(KeyOf(parts[i].receipt))) && (skipped ==> skip) && IsPlain(key.message)
    ensures PartsOpen(after, linked, parts, i + 1, skip)
  {
    hide Adds, PartOpen;
    forall j | i + 1 <= j < |parts| ensures PartOpen(after, linked, parts[j], skip) {
      PartOpenStays(before, after, files, linked, OfNoticed(KeyOf(parts[i].receipt)), parts[j], skipped, skip);
    }
  }

  /** Publishing other messages contradicts nothing of these parts. */
  lemma OthersOpenStay(
    before: seq<Published>, after: seq<Published>, files: map<Id, Id>, linked: map<Id, Id>, own: Owner,
    parts: seq<Part>, key: ReceiptKey, attached: seq<Artifact>, skipped: bool, skip: bool)
    requires PartsOpen(before, files, parts, 0, skipped) && Serial(parts, key, attached)
    requires Adds(before, after, own) && (skipped ==> skip) && (linked == files || attached == [])
    requires forall k: ReceiptKey :: k.run == key.run && OfItem(key.message, k.message) ==> !Owns(own, k)
    ensures PartsOpen(after, linked, parts, 0, skip)
  {
    hide Adds, PartOpen;
    forall j | 0 <= j < |parts| ensures PartOpen(after, linked, parts[j], skip) {
      PartOpenStays(before, after, files, linked, own, parts[j], skipped, skip);
    }
  }

  ghost predicate NoClash(mine: seq<Published>, parts: seq<Part>, i: nat, skip: bool) {
    forall j :: i <= j < |parts| ==> !Find(mine, parts[j], skip).Clash?
  }

  lemma NoticeNoClash(s: Scope, run: RunView, render: Render, mine: seq<Published>, skip: bool)
    requires NoticeOpen(s, run, render, mine, false)
    ensures NoClash(mine, NoticeParts(s, run, render), 0, skip)
  {
    var parts := NoticeParts(s, run, render);
    hide NoticeParts, Find, PartOpen;
    forall j | 0 <= j < |parts| ensures !Find(mine, parts[j], skip).Clash? {
      OpenIsNoClash(mine, map[], parts[j], false);
    }
  }

  lemma NoticeIsSerial(s: Scope, run: RunView, render: Render)
    ensures NoticeParts(s, run, render) != []
    ensures Serial(NoticeParts(s, run, render), ItemKey(s, run, AttachmentsFailed), [])
    ensures s.root != 0 ==> forall part :: part in NoticeParts(s, run, render) ==> WellFormed(s, part)
  {
    PartsAreWellFormed(s, run.session, Run(run.id), Item(AttachmentsFailed, FAILED_TEXT, []), render);
    PartsAreSerial(s, run, render, Item(AttachmentsFailed, FAILED_TEXT, []));
  }

  lemma NothingToNotice(s: Scope, run: RunView, render: Render, mine: seq<Published>)
    ensures NoticeOpen(s, run, render, mine, true)
  {
  }

  /** The turn of a notice part has come when the one before it is posted. */
  lemma NoticeIsNext(mine: seq<Published>, parts: seq<Part>, key: ReceiptKey, i: nat, skip: bool)
    requires i < |parts| && Serial(parts, key, []) && (i > 0 ==> Find(mine, parts[i - 1], skip).One?)
    ensures parts[i].receipt.attachments == [] && KeyOf(parts[i].receipt) == key.(part := i)
    ensures NoClash(mine, parts, i, skip) ==> !Find(mine, parts[i], skip).Clash?
    ensures parts[i].receipt.part > 0 ==>
              Holding(mine, KeyOf(parts[i].receipt).(part := parts[i].receipt.part - 1)) != []
  {
    hide Holding;
    if i > 0 {
      assert KeyOf(parts[i - 1].receipt) == KeyOf(parts[i].receipt).(part := i - 1);
    }
  }

  lemma NoClashStep(
    before: seq<Published>, after: seq<Published>, parts: seq<Part>, key: ReceiptKey, i: nat, skip: bool)
    requires i < |parts| && Serial(parts, key, []) && !key.message.Repair?
    requires Adds(before, after, OfPart(KeyOf(parts[i].receipt)))
    ensures Adds(before, after, OfMessage(key.session, key.run, key.message))
    ensures NoClash(before, parts, i, skip) ==> NoClash(after, parts, i + 1, skip)
  {
    AddsWiden(before, after, OfPart(KeyOf(parts[i].receipt)), OfMessage(key.session, key.run, key.message));
    hide Adds, Find;
    forall j | i + 1 <= j < |parts| ensures Find(after, parts[j], skip) == Find(before, parts[j], skip) {
      FindStays(before, after, OfPart(KeyOf(parts[i].receipt)), parts[j], skip);
    }
  }

  /** The notice stays open while no part of it is published. */
  lemma NoticeOpenStays(
    before: seq<Published>, after: seq<Published>, own: Owner, s: Scope, run: RunView, render: Render, skip: bool)
    requires NoticeOpen(s, run, render, before, skip) && Adds(before, after, own)
    requires forall k :: Owns(own, k) ==> !OfNotice(k.message)
    ensures NoticeOpen(s, run, render, after, skip)
  {
    PartsAreSerial(s, run, render, Item(AttachmentsFailed, FAILED_TEXT, []));
    hide Adds, PartsOpen, Parts;
    if !skip {
      OthersOpenStay(before, after, map[], map[], own, NoticeParts(s, run, render), ItemKey(s, run, AttachmentsFailed),
                     [], false, false);
    }
  }

  /** What publishing one part means for the attachment notice. */
  lemma PartPublished(
    before: seq<Published>, after: seq<Published>, s: Scope, run: RunView, render: Render, part: Part, skip: bool)
    requires Adds(before, after, OfPart(KeyOf(part.receipt)))
    ensures Adds(before, after, OfNoticed(KeyOf(part.receipt)))
    ensures Notice(before, AttachmentsFailed, Run(run.id)) ==> Notice(after, AttachmentsFailed, Run(run.id))
    ensures part.receipt.message != AttachmentsFailed ==>
              Notice(after, AttachmentsFailed, Run(run.id)) == Notice(before, AttachmentsFailed, Run(run.id))
    ensures IsPlain(part.receipt.message) && NoticeOpen(s, run, render, before, skip) ==>
              NoticeOpen(s, run, render, after, skip)
  {
    var own := OfPart(KeyOf(part.receipt));
    hide Adds, Notice, NoticeOpen;
    NoticeStays(before, after, own, AttachmentsFailed, Run(run.id));
    AddsWiden(before, after, own, OfNoticed(KeyOf(part.receipt)));
    if IsPlain(part.receipt.message) && NoticeOpen(s, run, render, before, skip) {
      NoticeOpenStays(before, after, own, s, run, render, skip);
    }
  }

  /** Publishing other messages contradicts nothing of this one. */
  lemma ItemOpenStays(
    before: seq<Published>, after: seq<Published>, files: map<Id, Id>, linked: map<Id, Id>, own: Owner, s: Scope,
    run: RunView, render: Render, item: Option<Item>, skipped: bool, skip: bool)
    requires ItemOpen(s, run, render, item, before, files, skipped) && Adds(before, after, own) && (skipped ==> skip)
    requires item.Some? && item.value.files != [] ==> linked == files
    requires item.Some? ==>
               forall k: ReceiptKey :: k.run == Run(run.id) && OfItem(item.value.message, k.message) ==> !Owns(own, k)
    ensures ItemOpen(s, run, render, item, after, linked, skip)
  {
    if item.Some? {
      PartsAreSerial(s, run, render, item.value);
      hide Adds, PartsOpen, Parts;
      OthersOpenStay(before, after, files, linked, own, Parts(s, run.session, Run(run.id), item.value, render),
                     ItemKey(s, run, item.value.message), item.value.files, skipped, skip);
    }
  }

  /** The posts of an item: its parts and the repairs of their files. */
  predicate OfItem(item: MessageKey, m: MessageKey) {
    m == item || (m.Repair? && m.of == item)
  }

  /** After delivery is given up, what was delivered with files counts as delivered without them. */
  lemma ItemWeakens(
    s: Scope, run: RunView, render: Render, item: Item, files: seq<Artifact>, mine: seq<Published>, table: map<Id, Id>,
    skip: bool)
    requires ItemDone(s, run, render, Some(item), mine, table, skip)
    ensures ItemDone(s, run, render, Some(item.(files := files)), mine, table, true)
  {
    if item.text != "" || !skip {
      var parts := Parts(s, run.session, Run(run.id), item, render);
      var other := Parts(s, run.session, Run(run.id), item.(files := files), render);
      forall i | 0 <= i < |other| ensures Delivered(mine, table, other[i], true) {
        SkipWeakens(mine, table, parts[i], skip, other[i].receipt.attachments);
        assert other[i] == parts[i].(receipt := parts[i].receipt.(attachments := other[i].receipt.attachments));
      }
    }
  }

  lemma ItemStays(
    s: Scope, run: RunView, render: Render, item: Option<Item>, before: seq<Published>, after: seq<Published>,
    files: map<Id, Id>, linked: map<Id, Id>, own: Owner, skip: bool)
    requires ItemDone(s, run, render, item, before, files, skip)
    requires Adds(before, after, own) && Links(files, linked) && Orderly(before)
    ensures ItemDone(s, run, render, item, after, linked, skip)
  {
    if item.Some? && !(skip && item.value.text == "") {
      var parts := Parts(s, run.session, Run(run.id), item.value, render);
      forall i | 0 <= i < |parts| ensures Delivered(after, linked, parts[i], skip) {
        DeliveredStays(before, after, files, linked, own, parts[i], skip);
      }
    }
  }

  /** An item once delivered stays so, also when files are given up afterwards. */
  lemma ItemKept(
    s: Scope, run: RunView, render: Render, item: Option<Item>, before: seq<Published>, after: seq<Published>,
    files: map<Id, Id>, linked: map<Id, Id>, own: Owner, skipped: bool, skip: bool)
    requires ItemDone(s, run, render, item, before, files, skipped) && (skipped ==> skip)
    requires Adds(before, after, own) && Links(files, linked) && Orderly(before)
    ensures ItemDone(s, run, render, item, after, linked, skip)
  {
    NoItem(s, run, render, after, linked, skip);
    hide Adds, Links, Orderly, ItemDone;
    ItemStays(s, run, render, item, before, after, files, linked, own, skipped);
    if item.Some? && skip {
      ItemWeakens(s, run, render, item.value, item.value.files, after, linked, skipped);
    }
  }

  lemma MessagesStay(
    s: Scope, run: RunView, render: Render, messages: seq<Message>, attached: seq<Artifact>, before: seq<Published>,
    after: seq<Published>, files: map<Id, Id>, linked: map<Id, Id>, own: Owner, skipped: bool, skip: bool)
    requires MessagesDone(s, run, render, messages, attached, before, files, skipped) && (skipped ==> skip)
    requires Adds(before, after, own) && Links(files, linked) && Orderly(before)
    ensures MessagesDone(s, run, render, messages, attached, after, linked, skip)
  {
    forall m | m in messages ensures ItemDone(s, run, render, MessageItem(run, render, m, attached), after, linked,
        skip) {
      ItemKept(s, run, render, MessageItem(run, render, m, attached), before, after, files, linked, own, skipped, skip);
    }
  }

  /** No two messages have the same identity, and none has that of no message. */
  ghost predicate DistinctMessages(messages: seq<Message>) {
    && (forall i, j :: 0 <= i < j < |messages| ==> messages[i].id != messages[j].id)
    && forall m :: m in messages ==> m.id != 0
  }

  /** Nothing in the thread contradicts the messages from the i-th on. */
  ghost predicate MessagesOpen(
    s: Scope, run: RunView, render: Render, messages: seq<Message>, i: nat, attached: seq<Artifact>,
    mine: seq<Published>, files: map<Id, Id>, skip: bool)
  {
    forall j :: i <= j < |messages| ==>
      ItemOpen(s, run, render, MessageItem(run, render, messages[j], attached), mine, files, skip)
  }

  lemma MessageOpen(
    s: Scope, run: RunView, render: Render, messages: seq<Message>, i: nat, attached: seq<Artifact>,
    mine: seq<Published>, files: map<Id, Id>, skip: bool)
    requires i < |messages| && MessagesOpen(s, run, render, messages, i, attached, mine, files, skip)
    ensures ItemOpen(s, run, render, MessageItem(run, render, messages[i], attached), mine, files, skip)
  {
  }

  /** Only the final message carries files. */
  lemma MessageKey(run: RunView, render: Render, m: Message, attached: seq<Artifact>)
    ensures var item := MessageItem(run, render, m, attached);
            item.Some? ==> item.value.message == Answer(m.id) && (m.id != run.final ==> item.value.files == [])
  {
  }

  lemma OtherAnswers(run: RunView, a: Id, b: Id)
    requires a != b
    ensures forall k: ReceiptKey :: k.run == Run(run.id) && OfItem(Answer(b), k.message) ==>
              !Owns(OfMessage(run.session, Run(run.id), Answer(a)), k)
  {
  }

  /** What sending one message added and moved. */
  ghost predicate Sent(
    before: seq<Published>, after: seq<Published>, files: map<Id, Id>, linked: map<Id, Id>, run: RunView,
    item: Option<Item>)
  {
    if item.None? then
      after == before && linked == files
    else
      && Adds(before, after, OfMessage(run.session, Run(run.id), item.value.message))
      && (item.value.files == [] ==> linked == files)
  }

  /** Sending one message leaves the later ones open. */
  lemma MessagesOpenStay(
    before: seq<Published>, after: seq<Published>, files: map<Id, Id>, linked: map<Id, Id>, s: Scope, run: RunView,
    render: Render, messages: seq<Message>, i: nat, attached: seq<Artifact>, skipped: bool, skip: bool)
    requires i < |messages| && DistinctMessages(messages) && (skipped ==> skip)
    requires MessagesOpen(s, run, render, messages, i, attached, before, files, skipped)
    requires Sent(before, after, files, linked, run, MessageItem(run, render, messages[i], attached))
    ensures MessagesOpen(s, run, render, messages, i + 1, attached, after, linked, skip)
  {
    var item := MessageItem(run, render, messages[i], attached);
    MessageKey(run, render, messages[i], attached);
    hide MessageItem, ItemOpen, Adds, Owns;
    forall j | i + 1 <= j < |messages|
      ensures ItemOpen(s, run, render, MessageItem(run, render, messages[j], attached), after, linked, skip)
    {
      MessageKey(run, render, messages[j], attached);
      var other := MessageItem(run, render, messages[j], attached);
      if item.Some? {
        OtherAnswers(run, messages[i].id, messages[j].id);
        ItemOpenStays(before, after, files, linked, OfMessage(run.session, Run(run.id), item.value.message), s, run,
                      render, other, skipped, skip);
      } else {
        ItemWeaklyOpen(s, run, render, other, before, files, skipped, skip);
      }
    }
  }

  lemma FilesItemOpen(
    s: Scope, run: RunView, render: Render, attached: seq<Artifact>, answered: bool, stopped: bool,
    mine: seq<Published>, files: map<Id, Id>, skip: bool)
    requires ClosingOpen(s, run, render, attached, answered, stopped, mine, files, skip)
    ensures ItemOpen(s, run, render, FilesItem(run, attached), mine, files, skip)
  {
  }

  /** Sending the files leaves the closing notice open. */
  lemma ClosingOpenStays(
    before: seq<Published>, after: seq<Published>, files: map<Id, Id>, linked: map<Id, Id>, s: Scope, run: RunView,
    render: Render, attached: seq<Artifact>, answered: bool, stopped: bool, skipped: bool, skip: bool)
    requires ClosingOpen(s, run, render, attached, answered, stopped, before, files, skipped)
    requires Sent(before, after, files, linked, run, FilesItem(run, attached)) && (skipped ==> skip)
    ensures ItemOpen(s, run, render, ClosingItem(run, answered || (run.final == 0 && attached != []), stopped), after,
                     linked, skip)
  {
    hide Adds, ItemOpen;
    var item := ClosingItem(run, answered || (run.final == 0 && attached != []), stopped);
    if FilesItem(run, attached).Some? {
      ItemOpenStays(before, after, files, linked, OfMessage(run.session, Run(run.id), AttachmentsOnly), s, run, render,
                    item, skipped, skip);
    } else {
      ItemWeaklyOpen(s, run, render, item, before, files, skipped, skip);
    }
  }

  /** It sends an answer, and moves no files before the final one. */
  lemma MessageSent(
    before: seq<Published>, after: seq<Published>, files: map<Id, Id>, linked: map<Id, Id>, s: Scope, run: RunView,
    render: Render, messages: seq<Message>, i: nat, attached: seq<Artifact>, skipped: bool, skip: bool)
    requires i < |messages| && DistinctMessages(messages) && (skipped ==> skip)
    requires MessagesOpen(s, run, render, messages, i, attached, before, files, skipped)
    requires Sent(before, after, files, linked, run, MessageItem(run, render, messages[i], attached))
    ensures MessagesOpen(s, run, render, messages, i + 1, attached, after, linked, skip)
    ensures Adds(before, after, OfAnswers(Run(run.id)))
    ensures run.final == 0 ==> linked == files
  {
    MessageKey(run, render, messages[i], attached);
    hide MessageItem, Adds, MessagesOpen;
    MessagesOpenStay(before, after, files, linked, s, run, render, messages, i, attached, skipped, skip);
    var item := MessageItem(run, render, messages[i], attached);
    if item.Some? {
      AddsWiden(before, after, OfMessage(run.session, Run(run.id), item.value.message), OfAnswers(Run(run.id)));
    } else {
      AddsNone(before, OfAnswers(Run(run.id)));
    }
  }

  /** Giving up on files makes nothing contradicted. */
  lemma ItemWeaklyOpen(
    s: Scope, run: RunView, render: Render, item: Option<Item>, mine: seq<Published>, files: map<Id, Id>,
    skipped: bool, skip: bool)
    requires ItemOpen(s, run, render, item, mine, files, skipped) && (skipped ==> skip)
    ensures ItemOpen(s, run, render, item, mine, files, skip)
  {
    if item.Some? {
      var parts := Parts(s, run.session, Run(run.id), item.value, render);
      forall j | 0 <= j < |parts| ensures PartOpen(mine, files, parts[j], skip) {
        OpenIsNoClash(mine, files, parts[j], skipped);
      }
    }
  }

  /** Giving up on files at the start leaves everything open. */
  lemma RunStaysOpen(
    before: seq<Published>, after: seq<Published>, s: Scope, run: RunView, render: Render, attached: seq<Artifact>,
    files: map<Id, Id>, stopped: bool, skipped: bool, skip: bool)
    requires Adds(before, after, OfMessage(run.session, Run(run.id), AttachmentsFailed)) && (skipped ==> skip)
    requires MessagesOpen(s, run, render, ByPosition(run.messages), 0, attached, before, files, skipped)
    requires ClosingOpen(s, run, render, attached, HasAnswer(run, render, ByPosition(run.messages), attached), stopped,
               before, files, skipped)
    ensures MessagesOpen(s, run, render, ByPosition(run.messages), 0, attached, after, files, skip)
    ensures ClosingOpen(s, run, render, attached, HasAnswer(run, render, ByPosition(run.messages), attached), stopped,
               after, files, skip)
  {
    var own := OfMessage(run.session, Run(run.id), AttachmentsFailed);
    var messages := ByPosition(run.messages);
    var answered := HasAnswer(run, render, messages, attached) || (run.final == 0 && attached != []);
    hide Adds, ItemOpen, ByPosition, HasAnswer, MessageItem;
    forall j | 0 <= j < |messages|
      ensures ItemOpen(s, run, render, MessageItem(run, render, messages[j], attached), after, files, skip)
    {
      MessageKey(run, render, messages[j], attached);
      ItemOpenStays(before, after, files, files, own, s, run, render,
                    MessageItem(run, render, messages[j], attached), skipped, skip);
    }
    ItemOpenStays(before, after, files, files, own, s, run, render, FilesItem(run, attached), skipped, skip);
    ItemOpenStays(before, after, files, files, own, s, run, render, ClosingItem(run, answered, stopped), skipped, skip);
  }

  lemma MessageKinds(run: RunView, render: Render, attached: seq<Artifact>)
    ensures forall m :: var item := MessageItem(run, render, m, attached); item.Some? ==> item.value.message.Answer?
  {
  }

  lemma NoMessages(
    s: Scope, run: RunView, render: Render, attached: seq<Artifact>, mine: seq<Published>, files: map<Id, Id>,
        skip: bool)
    ensures MessagesDone(s, run, render, [], attached, mine, files, skip) && !HasAnswer(run, render, [], attached)
  {
  }

  lemma MessageIsDone(
    s: Scope, run: RunView, render: Render, messages: seq<Message>, i: nat, attached: seq<Artifact>,
        mine: seq<Published>,
    files: map<Id, Id>, skip: bool)
    requires i < |messages| && MessagesDone(s, run, render, messages, attached, mine, files, skip)
    ensures var item := MessageItem(run, render, messages[i], attached);
            && ItemDone(s, run, render, item, mine, files, skip)
            && (attached == [] && item.Some? ==> item.value.text != "")
  {
  }

  lemma MessagesStep(
    s: Scope, run: RunView, render: Render, messages: seq<Message>, attached: seq<Artifact>, mine: seq<Published>,
    files: map<Id, Id>, skip: bool, i: nat)
    requires i < |messages| && MessagesDone(s, run, render, messages[..i], attached, mine, files, skip)
    requires ItemDone(s, run, render, MessageItem(run, render, messages[i], attached), mine, files, skip)
    ensures MessagesDone(s, run, render, messages[..i + 1], attached, mine, files, skip)
  {
    assert messages[..i + 1] == messages[..i] + [messages[i]];
  }

  /** Giving up on files leaves nothing of the messages to deliver. */
  lemma MessagesWeaken(
    s: Scope, run: RunView, render: Render, messages: seq<Message>, attached: seq<Artifact>, mine: seq<Published>,
    files: map<Id, Id>)
    requires MessagesDone(s, run, render, messages, attached, mine, files, true)
    ensures MessagesDone(s, run, render, messages, [], mine, files, true)
  {
    hide ItemDone, MessageItem;
    forall m | m in messages ensures ItemDone(s, run, render, MessageItem(run, render, m, []), mine, files, true) {
      MessageWeakens(s, run, render, m, attached, mine, files);
    }
  }

  lemma MessageWeakens(
    s: Scope, run: RunView, render: Render, m: Message, attached: seq<Artifact>, mine: seq<Published>, files: map<Id,
        Id>)
    requires ItemDone(s, run, render, MessageItem(run, render, m, attached), mine, files, true)
    ensures ItemDone(s, run, render, MessageItem(run, render, m, []), mine, files, true)
  {
    NoItem(s, run, render, mine, files, true);
    hide ItemDone;
    var item := MessageItem(run, render, m, attached);
    if item.Some? {
      ItemWeakens(s, run, render, item.value, [], mine, files, true);
    }
  }

  /** When every item was sent, the run is settled: with files given up on the way, less is left to deliver. */
  lemma SettledAfter(
    s: Scope, run: RunView, render: Render, attached: seq<Artifact>, mine: seq<Published>, files: map<Id, Id>,
    stopped: bool, skip: bool)
    requires Contract(run.messages, run.id) == Some(render) && attached == Files(run, stopped)
    requires skip == Notice(mine, AttachmentsFailed, Run(run.id)) && (stopped ==> skip)
    requires run.terminal && !stopped ==> HookOutput(run, run.hooks).Some?
    requires MessagesDone(s, run, render, ByPosition(run.messages), attached, mine, files, skip)
    requires ItemDone(s, run, render, FilesItem(run, attached), mine, files, skip)
    requires ItemDone(s, run, render,
              ClosingItem(run, Answered(run, render, ByPosition(run.messages), attached), stopped),
                      mine, files, skip)
    ensures Settled(s, run, mine, files)
  {
    if skip {
      MessagesWeaken(s, run, render, ByPosition(run.messages), attached, mine, files);
    }
  }

  /** A run still going has nothing to close. */
  lemma NothingToClose(
    s: Scope, run: RunView, render: Render, attached: seq<Artifact>, answered: bool, stopped: bool,
        mine: seq<Published>,
    files: map<Id, Id>, skip: bool)
    requires !run.terminal
    ensures ItemDone(s, run, render, FilesItem(run, attached), mine, files, skip)
    ensures ItemDone(s, run, render, ClosingItem(run, answered, stopped), mine, files, skip)
  {
  }

  /** What is left to close is no answer and, if it has files, they were not moved. */
  lemma ClosingStaysOpen(
    before: seq<Published>, after: seq<Published>, files: map<Id, Id>, linked: map<Id, Id>, s: Scope, run: RunView,
    render: Render, attached: seq<Artifact>, answered: bool, stopped: bool, skipped: bool, skip: bool)
    requires ClosingOpen(s, run, render, attached, answered, stopped, before, files, skipped) && (skipped ==> skip)
    requires Adds(before, after, OfAnswers(Run(run.id))) && (run.final == 0 ==> linked == files)
    ensures ClosingOpen(s, run, render, attached, answered, stopped, after, linked, skip)
  {
    hide Adds, ItemOpen;
    ItemOpenStays(before, after, files, linked, OfAnswers(Run(run.id)), s, run, render, FilesItem(run, attached),
                  skipped, skip);
    ItemOpenStays(before, after, files, linked, OfAnswers(Run(run.id)), s, run, render,
                  ClosingItem(run, answered || (run.final == 0 && attached != []), stopped), skipped, skip);
  }

  /** A delivered attachment notice is visible as one. */
  lemma NoticeDone(s: Scope, run: RunView, render: Render, mine: seq<Published>, files: map<Id, Id>, skip: bool)
    requires ItemDone(s, run, render, Some(Item(AttachmentsFailed, FAILED_TEXT, [])), mine, files, skip)
    ensures Notice(mine, AttachmentsFailed, Run(run.id))
  {
    var notice := Item(AttachmentsFailed, FAILED_TEXT, []);
    assert |notice.text| > 0;
    var parts := Parts(s, run.session, Run(run.id), notice, render);
    assert Delivered(mine, files, parts[0], skip);
    PostedNotice(mine, parts[0], skip);
  }

  /** Publishing another run does not unsettle this one. */
  lemma SettledStays(
    s: Scope, run: RunView, before: seq<Published>, after: seq<Published>, files: map<Id, Id>, linked: map<Id, Id>,
    other: Id)
    requires Settled(s, run, before, files) && other != run.id
    requires Adds(before, after, OfRun(Run(other))) && Links(files, linked) && Orderly(before)
    ensures Settled(s, run, after, linked)
  {
    hide Adds, ItemDone, MessagesDone, Notice, Orderly, HookOutput, ByPosition, Answered;
    var own := OfRun(Run(other));
    NoticeStays(before, after, own, AttachmentsFailed, Run(run.id));
    var stopped := Notice(before, AttachmentsFailed, Run(run.id));
    var render, attached := Contract(run.messages, run.id).value, Files(run, stopped);
    var messages := ByPosition(run.messages);
    MessagesStay(s, run, render, messages, attached, before, after, files, linked, own, stopped, stopped);
    ItemStays(s, run, render, FilesItem(run, attached), before, after, files, linked, own, stopped);
    ItemStays(s, run, render, ClosingItem(run, Answered(run, render, messages, attached), stopped), before, after,
        files, linked, own, stopped);
  }

  lemma NoItem(s: Scope, run: RunView, render: Render, mine: seq<Published>, files: map<Id, Id>, skip: bool)
    ensures ItemDone(s, run, render, None, mine, files, skip) && ItemOpen(s, run, render, None, mine, files, skip)
  {
  }

  // --- what a published run has in its thread, read off its history ---

  /** The render contract: that of the run's first initial envelope, before any undecodable input. */
  ghost predicate RenderOf(messages: seq<Message>, run: Id, render: Render) {
    exists i :: 0 <= i < |messages| && RenderAt(messages, run, render, i)
  }

  ghost predicate RenderAt(messages: seq<Message>, run: Id, render: Render, i: nat)
    requires i < |messages|
  {
    && messages[i].run == run && messages[i].role == User && messages[i].metadata == Envelope(true, render)
    && forall k :: 0 <= k < i && messages[k].run == run && messages[k].role == User ==>
         messages[k].metadata != Malformed && !(messages[k].metadata.Envelope? && messages[k].metadata.initial)
  }

  lemma {:induction false} ContractExactly(messages: seq<Message>, run: Id, render: Render)
    ensures Contract(messages, run) == Some(render) <==> RenderOf(messages, run, render)
  {
    if messages != [] {
      var m, rest := messages[0], messages[1..];
      ContractExactly(rest, run, render);
      assert forall k :: 0 <= k < |rest| ==> rest[k] == messages[k + 1];
      if m.run == run && m.role == User
         && (m.metadata == Malformed || (m.metadata.Envelope? && m.metadata.initial)) {
        assert forall i :: 0 <= i < |messages| && RenderAt(messages, run, render, i) ==> i == 0;
        assert m.metadata == Envelope(true, render) ==> RenderAt(messages, run, render, 0);
      } else {
        assert !RenderAt(messages, run, render, 0);
        forall i | 0 <= i < |rest|
          ensures RenderAt(rest, run, render, i) <==> RenderAt(messages, run, render, i + 1)
        {
          assert forall k :: 0 < k < |messages| ==> messages[k] == rest[k - 1];
        }
        assert forall i :: 0 < i < |messages| && RenderAt(messages, run, render, i) ==>
          RenderAt(rest, run, render, i - 1);
      }
    }
  }

  /** The files of the run's result: those of its first complete hook, once they are uploaded and pass the check. */
  ghost predicate ResultOf(run: RunView, files: seq<Artifact>) {
    || (run.agentless && files == [])
    || (!run.agentless && exists i :: 0 <= i < |run.hooks| && ResultAt(run, run.hooks, i, files))
  }

  ghost predicate ResultAt(run: RunView, hooks: seq<Hook>, i: nat, files: seq<Artifact>)
    requires i < |hooks|
  {
    && hooks[i].afterRun && hooks[i].completed && hooks[i].complete
    && (forall k :: 0 <= k < i ==> !(hooks[k].afterRun && hooks[k].completed && hooks[k].complete))
    && hooks[i].output.Readable? && hooks[i].output.output.stage == X.Ready
    && X.ConnectorAccepts(hooks[i].output.output, run.expected) && files == hooks[i].output.output.files
  }

  lemma {:induction false} ResultExactly(run: RunView, hooks: seq<Hook>, files: seq<Artifact>)
    requires !run.agentless
    ensures HookOutput(run, hooks) == Some(files) <==>
            exists i :: 0 <= i < |hooks| && ResultAt(run, hooks, i, files)
  {
    hide X.ConnectorAccepts;
    if hooks != [] {
      var rest := hooks[1..];
      ResultExactly(run, rest, files);
      assert forall k :: 0 <= k < |rest| ==> rest[k] == hooks[k + 1];
      if i :| 0 <= i < |hooks| && ResultAt(run, hooks, i, files) {
        assert i > 0 ==> ResultAt(run, rest, i - 1, files);
      }
      if i :| 0 <= i < |rest| && ResultAt(run, rest, i, files) {
        assert !IsResult(hooks[0]) ==> ResultAt(run, hooks, i + 1, files) by {
          assert forall k :: 0 < k < |hooks| ==> hooks[k] == rest[k - 1];
        }
      }
      assert HookOutput(run, hooks) == Some(files) && IsResult(hooks[0]) ==> ResultAt(run, hooks, 0, files);
    }
  }

  lemma HookOutputExactly(run: RunView)
    ensures forall files :: HookOutput(run, run.hooks) == Some(files) <==> ResultOf(run, files)
  {
    forall files ensures HookOutput(run, run.hooks) == Some(files) <==> ResultOf(run, files) {
      if !run.agentless {
        ResultExactly(run, run.hooks, files);
      }
    }
  }

  /** The posts under a message's receipt keys, one for each part and no more, say this text when read in order. */
  ghost predicate Spells(mine: seq<Published>, key: ReceiptKey, text: string) {
    exists posts: seq<Published> :: SpelledBy(mine, key, text, posts)
  }

  ghost predicate SpelledBy(mine: seq<Published>, key: ReceiptKey, text: string, posts: seq<Published>) {
    && posts != []
    && (forall i :: 0 <= i < |posts| ==>
          Holding(mine, key.(part := i)) == [posts[i]] && posts[i].receipt.parts == |posts|)
    && Joined(seq(|posts|, i requires 0 <= i < |posts| => posts[i].post.message)) == text
  }

  /** A post under this key, or a repair of it, has the file and is linked to it. */
  ghost predicate HasFile(mine: seq<Published>, files: map<Id, Id>, key: ReceiptKey, f: Artifact) {
    exists p: Published, a: Artifact ::
      && p in mine && (KeyOf(p.receipt) == key || KeyOf(p.receipt) == RepairKey(key, f.id))
      && a.id == f.id && a.sha == f.sha && IsVerified(files, p.post, a)
  }

  /** An answer of the agent in this run, in its place in the conversation. */
  ghost predicate Answers(run: RunView, m: Message) {
    m.run == run.id && m.role == Assistant && m.position >= 0 && m.kind == FinalAnswer
  }

  ghost predicate Comments(run: RunView, m: Message) {
    m.run == run.id && m.role == Assistant && m.position >= 0 && m.kind == Progress
  }

  /** Files of the result are delivered, unless a notice has given them up. */
  ghost predicate WithFiles(run: RunView, noticed: bool) {
    run.terminal && !noticed && exists files :: files != [] && ResultOf(run, files)
  }

  /** The finished run has an answer to show: text, or the files that go with its final message. */
  ghost predicate Shows(run: RunView, m: Message, noticed: bool) {
    Answers(run, m) && run.terminal && (m.text != "" || (m.id == run.final && WithFiles(run, noticed)))
  }

  /** Nothing comes of the finished run: no answer, no files, no failure, and no notice about files either. */
  ghost predicate Empty(run: RunView, noticed: bool) {
    && run.terminal && run.failure == "" && !noticed && (exists files :: ResultOf(run, files))
    && (forall m :: m in run.messages ==> !Shows(run, m, noticed))
    && !(run.final == 0 && WithFiles(run, noticed))
  }

  /** Everything of the run is in the thread: the text of each answer, commentary where the contract asks for it, the
      files of the result on its final message or on their own, and a closing notice if there is something to say. */
  ghost predicate Complete(s: Scope, run: RunView, render: Render, mine: seq<Published>, files: map<Id, Id>) {
    var noticed := Notice(mine, AttachmentsFailed, Run(run.id));
    && (forall m :: m in run.messages && Answers(run, m) && run.terminal && m.text != "" ==>
          Spells(mine, ItemKey(s, run, Answer(m.id)), m.text))
    && (forall m :: m in run.messages && Comments(run, m) && render.commentary && m.text != "" ==>
          Spells(mine, ItemKey(s, run, Answer(m.id)), m.text))
    && (run.terminal && !noticed ==>
          exists attached :: ResultOf(run, attached) && FilesPosted(s, run, attached, mine, files))
    && (run.terminal && run.failure != "" ==> Spells(mine, ItemKey(s, run, RunStatus), run.failure))
    && (Empty(run, noticed) ==> Spells(mine, ItemKey(s, run, EmptyResult), EMPTY_TEXT))
  }

  ghost predicate FilesPosted(
    s: Scope, run: RunView, attached: seq<Artifact>, mine: seq<Published>, files: map<Id, Id>)
  {
    forall f :: f in attached ==>
      && (run.final == 0 ==> HasFile(mine, files, ItemKey(s, run, AttachmentsOnly), f))
      && forall m :: m in run.messages && Answers(run, m) && m.id == run.final ==>
           HasFile(mine, files, ItemKey(s, run, Answer(m.id)), f)
  }

  lemma DoneSpells(
    s: Scope, run: RunView, render: Render, item: Item, mine: seq<Published>, files: map<Id, Id>, skip: bool)
    requires ItemDone(s, run, render, Some(item), mine, files, skip) && item.text != ""
    ensures Spells(mine, ItemKey(s, run, item.message), item.text)
  {
    var parts := Parts(s, run.session, Run(run.id), item, render);
    var key := ItemKey(s, run, item.message);
    forall i | 0 <= i < |parts|
      ensures Find(mine, parts[i], skip).One? && Holding(mine, key.(part := i)) == [Find(mine, parts[i], skip).found]
      ensures Find(mine, parts[i], skip).found.receipt.parts == |parts|
    {
      PartIsWellFormed(s, run, render, item, i);
      PartCounts(s, run, render, item, i);
      assert Delivered(mine, files, parts[i], skip);
    }
    DeliveredSpells(s, run, render, item, mine, files, skip);
    var posts := seq(|parts|, i requires 0 <= i < |parts| => Find(mine, parts[i], skip).found);
    var said := seq(|parts|, i requires 0 <= i < |parts| => Said(mine, parts[i], skip));
    hide Find, Delivered, ItemDone, Parts;
    assert said == seq(|posts|, i requires 0 <= i < |posts| => posts[i].post.message);
    assert SpelledBy(mine, key, item.text, posts);
  }

  lemma PartCounts(s: Scope, run: RunView, render: Render, item: Item, i: nat)
    requires i < |Parts(s, run.session, Run(run.id), item, render)|
    ensures Parts(s, run.session, Run(run.id), item, render)[i].receipt.parts ==
            |Parts(s, run.session, Run(run.id), item, render)|
  {
  }

  lemma DoneAttaches(
    s: Scope, run: RunView, render: Render, item: Item, mine: seq<Published>, files: map<Id, Id>)
    requires ItemDone(s, run, render, Some(item), mine, files, false)
    ensures forall f :: f in item.files ==> HasFile(mine, files, ItemKey(s, run, item.message), f)
  {
    var part := Parts(s, run.session, Run(run.id), item, render)[0];
    PartIsWellFormed(s, run, render, item, 0);
    assert Delivered(mine, files, part, false);
    hide Parts, ItemDone;
    var p := Find(mine, part, false).found;
    HoldingKeys(mine, KeyOf(part.receipt));
    assert SameArtifacts(p.receipt.attachments, part.receipt.attachments);
    forall f | f in item.files ensures HasFile(mine, files, ItemKey(s, run, item.message), f) {
      var i :| 0 <= i < |item.files| && item.files[i] == f;
      assert FileDelivered(mine, files, p, part, i);
      FileIsThere(mine, files, p, part, i);
    }
  }

  lemma FileIsThere(mine: seq<Published>, files: map<Id, Id>, p: Published, part: Part, i: nat)
    requires i < |p.receipt.attachments| && SameArtifacts(p.receipt.attachments, part.receipt.attachments)
    requires p in mine && KeyOf(p.receipt) == KeyOf(part.receipt) && FileDelivered(mine, files, p, part, i)
    requires KeyOf(part.receipt).part == 0
    ensures HasFile(mine, files, KeyOf(part.receipt), part.receipt.attachments[i])
  {
    var f := part.receipt.attachments[i];
    if !IsVerified(files, p.post, p.receipt.attachments[i]) {
      var repair := RepairPart(part, i, f.id);
      HoldingKeys(mine, KeyOf(repair.receipt));
      var q := Find(mine, repair, false).found;
      assert q in mine && KeyOf(q.receipt) == RepairKey(KeyOf(part.receipt), f.id);
      assert SameArtifacts(q.receipt.attachments, [f]);
      assert IsVerified(files, q.post, q.receipt.attachments[0]);
    }
  }

  /** What the items of a run are made of. */
  lemma ItemFields(run: RunView, render: Render, m: Message, noticed: bool)
    ensures var attached := Files(run, noticed);
            var item := MessageItem(run, render, m, attached);
            && (WithFiles(run, noticed) <==> attached != [])
            && (m.kind == FinalAnswer ==> (item.Some? <==> Shows(run, m, noticed)))
            && (Answers(run, m) && Shows(run, m, noticed) ==>
                  item == Some(Item(Answer(m.id), m.text, if m.id == run.final then attached else [])))
            && (m.kind == Progress ==> (item.Some? <==> Comments(run, m) && render.commentary && m.text != ""))
            && (Comments(run, m) && render.commentary && m.text != "" ==> item == Some(Item(Answer(m.id), m.text, [])))
            && (m.kind != FinalAnswer && m.kind != Progress ==> item.None?)
  {
    HookOutputExactly(run);
    hide HookOutput, ResultOf;
    if run.terminal && !noticed && HookOutput(run, run.hooks).Some? {
      assert ResultOf(run, HookOutput(run, run.hooks).value);
    }
  }

  lemma ClosingFields(run: RunView, render: Render, noticed: bool)
    ensures var attached := Files(run, noticed);
            var messages := ByPosition(run.messages);
            && (FilesItem(run, attached).Some? <==> run.final == 0 && WithFiles(run, noticed))
            && (run.terminal && !noticed && HookOutput(run, run.hooks).Some? ==>
                  (Empty(run, noticed) <==> run.failure == "" && !Answered(run, render, messages, attached)))
  {
    var attached, messages := Files(run, noticed), ByPosition(run.messages);
    ByPositionSorts(run.messages);
    HookOutputExactly(run);
    forall m: Message ensures m in messages <==> m in run.messages {
      assert m in multiset(messages) <==> m in multiset(run.messages);
    }
    forall m: Message ensures IsAnswer(run, render, m, attached) <==> Shows(run, m, noticed) {
      ItemFields(run, render, m, noticed);
    }
    ItemFields(run, render, Message(0, 0, User, OtherKind, 0, "", NoMetadata), noticed);
    hide HookOutput, ResultOf, ByPosition, MessageItem, IsAnswer, Shows;
    if run.terminal && !noticed && HookOutput(run, run.hooks).Some? {
      assert ResultOf(run, HookOutput(run, run.hooks).value);
    }
  }

  /** The items that a run can have in its thread when files are, or are not, given up already. */
  ghost function Expected(run: RunView, render: Render, noticed: bool): set<MessageKey> {
    (set m | m in run.messages
             && (Shows(run, m, noticed) || (Comments(run, m) && render.commentary && m.text != "")) :: Answer(m.id))
    + (if run.final == 0 && WithFiles(run, noticed) then {AttachmentsOnly} else {})
    + (if run.terminal && run.failure != "" then {RunStatus} else {})
    + (if Empty(run, noticed) then {EmptyResult} else {})
    + (if run.terminal && !noticed && !ResultOf(run, []) then {AttachmentsFailed} else {})
  }

  ghost predicate CoversMessages(
    run: RunView, render: Render, messages: seq<Message>, attached: seq<Artifact>, keys: set<MessageKey>)
  {
    forall m :: m in messages && MessageItem(run, render, m, attached).Some? ==>
      && MessageItem(run, render, m, attached).value.message in keys
      && (MessageItem(run, render, m, attached).value.files != [] ==> AttachmentsFailed in keys)
  }

  lemma CoversMessage(
    run: RunView, render: Render, messages: seq<Message>, attached: seq<Artifact>, keys: set<MessageKey>, i: nat)
    requires i < |messages| && CoversMessages(run, render, messages, attached, keys)
    ensures var item := MessageItem(run, render, messages[i], attached);
            item.Some? ==>
              && item.value.message in keys && item.value.message != AttachmentsFailed
              && (item.value.files != [] ==> AttachmentsFailed in keys)
  {
  }

  ghost predicate CoversClosing(
    run: RunView, attached: seq<Artifact>, answered: bool, stopped: bool, keys: set<MessageKey>)
  {
    var closing := ClosingItem(run, answered || (run.final == 0 && attached != []), stopped);
    && (FilesItem(run, attached).Some? ==> AttachmentsOnly in keys && AttachmentsFailed in keys)
    && (closing.Some? ==> closing.value.message in keys)
  }

  lemma CoversItems(
    run: RunView, attached: seq<Artifact>, answered: bool, stopped: bool, keys: set<MessageKey>)
    requires CoversClosing(run, attached, answered, stopped, keys)
    ensures var files := FilesItem(run, attached);
            var closing := ClosingItem(run, answered || (run.final == 0 && attached != []), stopped);
            && (files.Some? ==> AttachmentsOnly in keys && AttachmentsFailed in keys)
            && (closing.Some? ==> closing.value.message in keys)
  {
  }

  /** Files are given up only when there are some, or the result cannot be read. */
  lemma NoticeFields(run: RunView, noticed: bool)
    ensures run.terminal && !noticed && !ResultOf(run, []) <==>
            Files(run, noticed) != [] || (NoResult(run) && !noticed)
  {
    HookOutputExactly(run);
    hide HookOutput, ResultOf;
    assert ResultOf(run, []) <==> HookOutput(run, run.hooks) == Some([]);
  }

  lemma ExpectedItems(run: RunView, render: Render, noticed: bool)
    ensures var stopped, keys := noticed || NoResult(run), Expected(run, render, noticed);
            && (NoResult(run) && !noticed ==> AttachmentsFailed in keys)
            && CoversMessages(run, render, ByPosition(run.messages), Files(run, stopped), keys)
            && CoversClosing(run, Files(run, stopped),
                 HasAnswer(run, render, ByPosition(run.messages), Files(run, stopped)), stopped, keys)
  {
    var stopped, keys := noticed || NoResult(run), Expected(run, render, noticed);
    assert Files(run, stopped) == Files(run, noticed);
    ClosingFields(run, render, noticed);
    ByPositionSorts(run.messages);
    NoticeFields(run, noticed);
    hide HookOutput, ByPosition, HasAnswer, Empty, ResultOf, WithFiles;
    forall m | m in ByPosition(run.messages) && MessageItem(run, render, m, Files(run, noticed)).Some?
      ensures MessageItem(run, render, m, Files(run, noticed)).value.message in keys
      ensures MessageItem(run, render, m, Files(run, noticed)).value.files != [] ==> AttachmentsFailed in keys
    {
      assert m in multiset(run.messages);
      ItemFields(run, render, m, noticed);
      ItemFiles(run, render, m, Files(run, noticed));
    }
  }

  lemma ItemFiles(run: RunView, render: Render, m: Message, attached: seq<Artifact>)
    ensures var item := MessageItem(run, render, m, attached);
            item.Some? && item.value.files != [] ==> attached != []
  {
  }

  /** A settled run is complete. */
  lemma SettledMeans(s: Scope, run: RunView, mine: seq<Published>, files: map<Id, Id>)
    requires Settled(s, run, mine, files)
    ensures exists render :: RenderOf(run.messages, run.id, render) && Complete(s, run, render, mine, files)
  {
    var noticed := Notice(mine, AttachmentsFailed, Run(run.id));
    var render := Contract(run.messages, run.id).value;
    var attached := Files(run, noticed);
    ContractExactly(run.messages, run.id, render);
    hide Contract, RenderOf, Notice, HookOutput, ByPosition, ItemDone, Answered;
    MessagesSpelled(s, run, render, mine, files, noticed);
    FilesAreThere(s, run, render, mine, files, noticed);
    ClosingSpelled(s, run, render, mine, files, noticed);
  }

  lemma MessagesSpelled(
    s: Scope, run: RunView, render: Render, mine: seq<Published>, files: map<Id, Id>, noticed: bool)
    requires MessagesDone(s, run, render, ByPosition(run.messages), Files(run, noticed), mine, files, noticed)
    ensures forall m :: m in run.messages && Answers(run, m) && run.terminal && m.text != "" ==>
              Spells(mine, ItemKey(s, run, Answer(m.id)), m.text)
    ensures forall m :: m in run.messages && Comments(run, m) && render.commentary && m.text != "" ==>
              Spells(mine, ItemKey(s, run, Answer(m.id)), m.text)
  {
    ByPositionSorts(run.messages);
    forall m | m in run.messages
        && ((Answers(run, m) && run.terminal) || (Comments(run, m) && render.commentary)) && m.text != ""
      ensures Spells(mine, ItemKey(s, run, Answer(m.id)), m.text)
    {
      assert m in multiset(ByPosition(run.messages));
      ItemFields(run, render, m, noticed);
      hide MessageItem, ItemDone, Files, Spells, WithFiles, ByPosition;
      var item := MessageItem(run, render, m, Files(run, noticed));
      DoneSpells(s, run, render, item.value, mine, files, noticed);
    }
  }

  /** Which items the files of a result go with. */
  lemma FilesCarried(run: RunView, render: Render)
    requires run.terminal && HookOutput(run, run.hooks).Some?
    ensures var attached := Files(run, false);
            && HookOutput(run, run.hooks) == Some(attached)
            && (attached != [] ==>
                  && (run.final == 0 ==> FilesItem(run, attached) == Some(Item(AttachmentsOnly, "", attached)))
                  && forall m :: Answers(run, m) && m.id == run.final ==>
                       MessageItem(run, render, m, attached) == Some(Item(Answer(m.id), m.text, attached)))
  {
    hide HookOutput;
  }

  lemma FilesAreThere(
    s: Scope, run: RunView, render: Render, mine: seq<Published>, files: map<Id, Id>, noticed: bool)
    requires MessagesDone(s, run, render, ByPosition(run.messages), Files(run, noticed), mine, files, noticed)
    requires ItemDone(s, run, render, FilesItem(run, Files(run, noticed)), mine, files, noticed)
    requires run.terminal && !noticed ==> HookOutput(run, run.hooks).Some?
    ensures run.terminal && !noticed ==>
              exists attached :: ResultOf(run, attached) && FilesPosted(s, run, attached, mine, files)
  {
    if run.terminal && !noticed {
      var attached := Files(run, noticed);
      ByPositionSorts(run.messages);
      HookOutputExactly(run);
      FilesCarried(run, render);
      hide ItemDone, HasFile, HookOutput, ResultOf, ByPosition, Files, FilesItem, MessageItem, Answers;
      if run.final == 0 && attached != [] {
        DoneAttaches(s, run, render, Item(AttachmentsOnly, "", attached), mine, files);
      }
      forall f, m | f in attached && m in run.messages && Answers(run, m) && m.id == run.final
        ensures HasFile(mine, files, ItemKey(s, run, Answer(m.id)), f)
      {
        assert m in multiset(ByPosition(run.messages));
        DoneAttaches(s, run, render, Item(Answer(m.id), m.text, attached), mine, files);
      }
      assert FilesPosted(s, run, attached, mine, files);
    }
  }

  lemma ClosingSpelled(
    s: Scope, run: RunView, render: Render, mine: seq<Published>, files: map<Id, Id>, noticed: bool)
    requires ItemDone(s, run, render,
              ClosingItem(run, Answered(run, render, ByPosition(run.messages), Files(run, noticed)), noticed),
              mine, files, noticed)
    requires run.terminal && !noticed ==> HookOutput(run, run.hooks).Some?
    ensures run.terminal && run.failure != "" ==> Spells(mine, ItemKey(s, run, RunStatus), run.failure)
    ensures Empty(run, noticed) ==> Spells(mine, ItemKey(s, run, EmptyResult), EMPTY_TEXT)
  {
    ClosingFields(run, render, noticed);
    hide ItemDone, Spells, HookOutput, Answered, ByPosition;
    if run.terminal && run.failure != "" {
      DoneSpells(s, run, render, Item(RunStatus, run.failure, []), mine, files, noticed);
    }
    if Empty(run, noticed) {
      assert |EMPTY_TEXT| > 0;
      DoneSpells(s, run, render, Item(EmptyResult, EMPTY_TEXT, []), mine, files, noticed);
    }
  }

  // --- a run that is not in the thread yet ---

  ghost predicate Unpublished(mine: seq<Published>, run: Id) {
    forall p :: p in mine ==> p.receipt.run != Run(run)
  }

  /** The files are attached nowhere and are different uploads. */
  predicate Unattached(attached: seq<Artifact>, files: map<Id, Id>) {
    && X.Distinct(attached)
    && (forall f :: f in attached ==> Free(files, f.file))
    && forall i, j :: 0 <= i < j < |attached| ==> attached[i].file != attached[j].file
  }

  lemma FreshItem(
    s: Scope, run: RunView, render: Render, item: Item, mine: seq<Published>, files: map<Id, Id>, skip: bool)
    requires Unpublished(mine, run.id) && Unattached(item.files, files)
    ensures ItemOpen(s, run, render, Some(item), mine, files, skip)
  {
    var parts := Parts(s, run.session, Run(run.id), item, render);
    PartsAreSerial(s, run, render, item);
    hide Parts, Find;
    forall j | 0 <= j < |parts| ensures PartOpen(mine, files, parts[j], skip) {
      assert KeyOf(parts[j].receipt).run == Run(run.id);
      FreshPart(mine, run.id, files, parts[j], skip);
    }
  }

  lemma {:induction false} NoneHeld(mine: seq<Published>, run: Id, key: ReceiptKey)
    requires Unpublished(mine, run) && key.run == Run(run)
    ensures Holding(mine, key) == []
  {
    if mine != [] {
      NoneHeld(mine[..|mine| - 1], run, key);
    }
  }

  lemma FreshPart(mine: seq<Published>, run: Id, files: map<Id, Id>, part: Part, skip: bool)
    requires Unpublished(mine, run) && part.receipt.run == Run(run) && Unattached(part.receipt.attachments, files)
    ensures PartOpen(mine, files, part, skip)
  {
    NoneHeld(mine, run, KeyOf(part.receipt));
    forall i | 0 <= i < |part.receipt.attachments|
      ensures Find(mine, RepairPart(part, i, part.receipt.attachments[i].id), false).Absent?
    {
      NoneHeld(mine, run, KeyOf(RepairPart(part, i, part.receipt.attachments[i].id).receipt));
    }
  }

  predicate Carries(item: Option<Item>, attached: seq<Artifact>) {
    item.Some? ==> item.value.files == [] || item.value.files == attached
  }

  lemma MessageCarries(run: RunView, render: Render, m: Message, attached: seq<Artifact>)
    ensures Carries(MessageItem(run, render, m, attached), attached)
  {
  }

  lemma ClosingCarries(run: RunView, attached: seq<Artifact>, answered: bool, stopped: bool)
    ensures Carries(FilesItem(run, attached), attached) && Carries(ClosingItem(run, answered, stopped), attached)
  {
  }

  lemma FreshItems(
    s: Scope, run: RunView, render: Render, attached: seq<Artifact>, mine: seq<Published>, files: map<Id, Id>)
    requires Unpublished(mine, run.id) && Unattached(attached, files)
    ensures MessagesOpen(s, run, render, ByPosition(run.messages), 0, attached, mine, files, false)
    ensures forall answered, stopped :: ClosingOpen(s, run, render, attached, answered, stopped, mine, files, false)
  {
    hide ByPosition, MessageItem, FilesItem, ClosingItem;
    forall item: Option<Item> | Carries(item, attached) ensures ItemOpen(s, run, render, item, mine, files, false) {
      if item.Some? {
        FreshItem(s, run, render, item.value, mine, files, false);
      }
    }
    hide ItemOpen, Carries;
    forall m: Message ensures Carries(MessageItem(run, render, m, attached), attached) {
      MessageCarries(run, render, m, attached);
    }
    forall answered, stopped ensures ClosingOpen(s, run, render, attached, answered, stopped, mine, files, false) {
      ClosingCarries(run, attached, answered || (run.final == 0 && attached != []), stopped);
    }
  }

  /** A run of which nothing is in the thread is open when its messages have identities of their own and the files
      of its result, if that is usable, are attached nowhere. */
  lemma FreshIsOpen(s: Scope, run: RunView, mine: seq<Published>, files: map<Id, Id>)
    requires s.root != 0 && Unpublished(mine, run.id)
    requires Contract(run.messages, run.id).Some? && DistinctMessages(ByPosition(run.messages))
    requires Unattached(Files(run, false), files)
    ensures RunOpen(s, run, mine, files)
  {
    var render, attached := Contract(run.messages, run.id).value, Files(run, false);
    hide Contract, HookOutput, ByPosition, HasAnswer, DistinctMessages, ItemOpen, MessagesOpen, ClosingOpen, NoticeOpen;
    FreshItems(s, run, render, attached, mine, files);
    FreshItem(s, run, render, Item(AttachmentsFailed, FAILED_TEXT, []), mine, map[], false);
    OpenNotice(s, run, render, mine);
  }

  lemma OpenNotice(s: Scope, run: RunView, render: Render, mine: seq<Published>)
    requires ItemOpen(s, run, render, Some(Item(AttachmentsFailed, FAILED_TEXT, [])), mine, map[], false)
    ensures NoticeOpen(s, run, render, mine, false)
  {
  }

  /** A part whose turn had come keeps it. */
  lemma StillInTurn(before: seq<Published>, after: seq<Published>, r: Receipt, own: Owner)
    requires Adds(before, after, own)
    ensures r.part > 0 && Holding(before, KeyOf(r).(part := r.part - 1)) != [] ==>
              Holding(after, KeyOf(r).(part := r.part - 1)) != []
  {
  }

  class Engine {
    var outputQueue: set<Id>

    constructor ()
      ensures outputQueue == {}
    {
      outputQueue := {};
    }

    /** The notice that attachments are given up, part by part. */
    method SendNotice(p: Publisher, run: RunView, render: Render) returns (outcome: Outcome)
      requires p.Synced()
      modifies p`posts, p.mm`thread, p.mm`files
      ensures p.Kept(OfMessage(run.session, Run(run.id), AttachmentsFailed))
      ensures !outcome.Failure? ==> p.Synced()
      ensures outcome.Done? ==> Notice(p.Seen(), AttachmentsFailed, Run(run.id))
      ensures p.mm.quiet && p.scope.root != 0 ==> outcome.Done? || outcome.Conflict?
      ensures p.mm.quiet && p.scope.root != 0 && NoticeOpen(p.scope, run, render, old(p.Seen()), false) ==>
                outcome.Done?
    {
      hide Adds, Notice, Orderly, Mine, Delivered, Find, Links, NoticeOpen, NoClash, NoticeParts, WellFormed;
      ghost var own := OfMessage(run.session, Run(run.id), AttachmentsFailed);
      AddsNone(p.Seen(), own);
      LinksNone(p.mm.files);
      ghost var open := p.mm.quiet && p.scope.root != 0 && NoticeOpen(p.scope, run, render, p.Seen(), false);
      if open {
        NoticeNoClash(p.scope, run, render, p.Seen(), p.skip);
      }
      var parts := NoticeParts(p.scope, run, render);
      NoticeIsSerial(p.scope, run, render);
      for i := 0 to |parts|
        invariant p.Synced() && p.Kept(own)
        invariant i > 0 ==> Find(p.Seen(), parts[i - 1], p.skip).One?
        invariant open ==> p.mm.quiet && NoClash(p.Seen(), parts, i, p.skip)
      {
        label before:
        outcome := NoticePart(p, run, render, parts, i);
        AddsTrans(old(p.mm.Receipts()), old@before(p.mm.Receipts()), p.mm.Receipts(), own);
        LinksTrans(old(p.mm.files), old@before(p.mm.files), p.mm.files);
        if !outcome.Done? {
          return;
        }
      }
      PostedNotice(p.Seen(), parts[|parts| - 1], p.skip);
      return Done;
    }

    /** One pass of its loop. */
    method NoticePart(p: Publisher, run: RunView, render: Render, parts: seq<Part>, i: nat) returns (outcome: Outcome)
      requires p.Synced() && parts == NoticeParts(p.scope, run, render) && i < |parts|
      requires i > 0 ==> Find(p.Seen(), parts[i - 1], p.skip).One?
      modifies p`posts, p.mm`thread, p.mm`files
      ensures p.Kept(OfMessage(run.session, Run(run.id), AttachmentsFailed))
      ensures !outcome.Failure? ==> p.Synced()
      ensures outcome.Done? ==> Find(p.Seen(), parts[i], p.skip).One?
      ensures p.mm.quiet && p.scope.root != 0 ==> outcome.Done? || outcome.Conflict?
      ensures p.mm.quiet && p.scope.root != 0 && NoClash(old(p.Seen()), parts, i, p.skip) ==>
                outcome.Done? && NoClash(p.Seen(), parts, i + 1, p.skip)
    {
      NoticeIsSerial(p.scope, run, render);
      ghost var key := ItemKey(p.scope, run, AttachmentsFailed);
      NoticeIsNext(p.Seen(), parts, key, i, p.skip);
      hide Adds, Notice, Orderly, Mine, NoticeParts, NoClash, WellFormed, Holding, Links, Serial;
      outcome := p.Publish(parts[i]);
      NoClashStep(old(p.mm.Receipts()), p.mm.Receipts(), parts, key, i, p.skip);
    }

    /** The flag records the notice; only the notice itself may be ahead of it. */
    static ghost predicate Flagged(p: Publisher, run: RunView, message: MessageKey)
      reads p
    {
      var notice := Notice(p.Seen(), AttachmentsFailed, Run(run.id));
      (p.skip ==> notice) && (message != AttachmentsFailed && notice ==> p.skip)
    }

    /** An item without files never leads to the notice that files are given up. */
    static ghost function OwnerOf(run: RunView, item: Item): Owner {
      if item.files == [] then OfOne(run.session, Run(run.id), item.message)
      else OfMessage(run.session, Run(run.id), item.message)
    }

    /** The closure `send` of Engine.publish. */
    method Send(p: Publisher, run: RunView, render: Render, item: Item) returns (outcome: Outcome)
      requires p.Synced() && Flagged(p, run, item.message)
      modifies p`posts, p`skip, p.mm`thread, p.mm`files
      ensures p.Kept(OwnerOf(run, item))
      ensures !outcome.Failure? ==> p.Synced()
      ensures outcome.Done? ==> ItemDone(p.scope, run, render, Some(item), p.Seen(), p.mm.files, p.skip)
      ensures outcome.Done? ==> Flagged(p, run, item.message)
      ensures old(p.skip) ==> p.skip
      ensures (p.mm.quiet && ItemDone(p.scope, run, render, Some(item), old(p.Seen()), old(p.mm.files), old(p.skip))
               && !(old(p.skip) && item.text == "")) ==> outcome.Done? && p.Still() && p.skip == old(p.skip)
      ensures (p.mm.quiet && p.scope.root != 0 && IsPlain(item.message)
               && ItemOpen(p.scope, run, render, Some(item), old(p.Seen()), old(p.mm.files), old(p.skip))
               && NoticeOpen(p.scope, run, render, old(p.Seen()), old(p.skip)))
              ==> && outcome.Done? && NoticeOpen(p.scope, run, render, p.Seen(), p.skip)
                  && (item.files == [] ==> p.mm.files == old(p.mm.files))
      ensures (p.mm.quiet && p.scope.root != 0 && item.files == [] && !item.message.Repair?
               && NoClash(old(p.Seen()), Parts(p.scope, run.session, Run(run.id), item, render), 0, old(p.skip)))
              ==> outcome.Done? && p.skip == old(p.skip) && p.mm.files == old(p.mm.files)
      ensures p.mm.quiet && p.scope.root != 0 ==> outcome.Done? || outcome.Conflict?
    {
      hide Adds, Links, Delivered, Notice, Orderly, Mine, PartsOpen, ItemDone, SentSoFar, Parts, NoticeOpen, NoClash,
        Find, Serial, Flagged, Owns, AllDelivered, OwnerOf;
      ghost var own := OwnerOf(run, item);
      AddsNone(p.Seen(), own);
      LinksNone(p.mm.files);
      var parts := Parts(p.scope, run.session, Run(run.id), item, render);
      ghost var replay := p.mm.quiet && AllDelivered(p.Seen(), p.mm.files, parts, p.skip);
      NothingSent(p.scope, run, render, item, p.Seen(), p.mm.files, p.skip);
      ghost var open := p.mm.quiet && p.scope.root != 0 && IsPlain(item.message)
                        && ItemOpen(p.scope, run, render, Some(item), p.Seen(), p.mm.files, p.skip)
                        && NoticeOpen(p.scope, run, render, p.Seen(), p.skip);
      ghost var clear := p.mm.quiet && p.scope.root != 0 && item.files == [] && !item.message.Repair?
                         && NoClash(p.Seen(), parts, 0, p.skip);
      for i := 0 to |parts|
        invariant open ==> p.mm.quiet && PartsOpen(p.Seen(), p.mm.files, parts, i, p.skip)
        invariant open ==> NoticeOpen(p.scope, run, render, p.Seen(), p.skip)
        invariant open && item.files == [] ==> p.mm.files == old(p.mm.files)
        invariant clear ==> p.mm.quiet && p.skip == old(p.skip) && p.mm.files == old(p.mm.files)
        invariant clear ==> NoClash(p.Seen(), parts, i, p.skip)
        invariant p.Synced() && p.Kept(own) && Flagged(p, run, item.message)
        invariant old(p.skip) ==> p.skip
        invariant SentSoFar(p.Seen(), p.mm.files, p.skip, parts, i)
        invariant replay ==> p.mm.quiet && p.Still() && p.skip == old(p.skip)
      {
        label before:
        NextIsOpen(p.Seen(), p.mm.files, parts, i, p.skip);
        outcome := SendNext(p, run, render, item, parts, i);
        AddsTrans(old(p.mm.Receipts()), old@before(p.mm.Receipts()), p.mm.Receipts(), own);
        LinksTrans(old(p.mm.files), old@before(p.mm.files), p.mm.files);
        if !outcome.Done? {
          return;
        }
      }
      AllSent(p.scope, run, render, item, p.Seen(), p.mm.files, p.skip);
      return Done;
    }

    static ghost predicate AllDelivered(mine: seq<Published>, files: map<Id, Id>, parts: seq<Part>, skip: bool) {
      forall j :: 0 <= j < |parts| ==> Delivered(mine, files, parts[j], skip)
    }

    static lemma NothingSent(
      s: Scope, run: RunView, render: Render, item: Item, mine: seq<Published>, files: map<Id, Id>, skip: bool)
      ensures SentSoFar(mine, files, skip, Parts(s, run.session, Run(run.id), item, render), 0)
      ensures ItemDone(s, run, render, Some(item), mine, files, skip) && !(skip && item.text == "")
              ==> AllDelivered(mine, files, Parts(s, run.session, Run(run.id), item, render), skip)
    {
    }

    static lemma AllSent(
      s: Scope, run: RunView, render: Render, item: Item, mine: seq<Published>, files: map<Id, Id>, skip: bool)
      requires var parts :=
                Parts(s, run.session, Run(run.id), item, render); SentSoFar(mine, files, skip, parts, |parts|)
      ensures ItemDone(s, run, render, Some(item), mine, files, skip)
    {
    }

    /** One pass of its loop, with what the parts before it keep. */
    method SendNext(p: Publisher, run: RunView, render: Render, item: Item, parts: seq<Part>, i: nat)
      returns (outcome: Outcome)
      requires p.Synced() && Flagged(p, run, item.message)
      requires parts == Parts(p.scope, run.session, Run(run.id), item, render) && i < |parts|
      requires SentSoFar(p.Seen(), p.mm.files, p.skip, parts, i)
      modifies p`posts, p`skip, p.mm`thread, p.mm`files
      ensures p.Kept(OwnerOf(run, item))
      ensures !outcome.Failure? ==> p.Synced()
      ensures outcome.Done? ==> SentSoFar(p.Seen(), p.mm.files, p.skip, parts, i + 1)
      ensures outcome.Done? ==> Flagged(p, run, item.message)
      ensures old(p.skip) ==> p.skip
      ensures p.mm.quiet && Delivered(old(p.Seen()), old(p.mm.files), parts[i], old(p.skip))
              ==> outcome.Done? && p.Still() && p.skip == old(p.skip)
      ensures (p.mm.quiet && p.scope.root != 0 && IsPlain(item.message)
               && PartsOpen(old(p.Seen()), old(p.mm.files), parts, i, old(p.skip))
               && NoticeOpen(p.scope, run, render, old(p.Seen()), old(p.skip)))
              ==> && outcome.Done? && PartsOpen(p.Seen(), p.mm.files, parts, i + 1, p.skip)
                  && NoticeOpen(p.scope, run, render, p.Seen(), p.skip)
                  && (item.files == [] ==> p.mm.files == old(p.mm.files))
      ensures (p.mm.quiet && p.scope.root != 0 && item.files == [] && !item.message.Repair?
               && NoClash(old(p.Seen()), parts, i, old(p.skip)))
              ==> && outcome.Done? && p.skip == old(p.skip) && p.mm.files == old(p.mm.files)
                  && NoClash(p.Seen(), parts, i + 1, p.skip)
      ensures p.mm.quiet && p.scope.root != 0 ==> outcome.Done? || outcome.Conflict?
    {
      TurnComes(p, run, render, item, i);
      PartIsWellFormed(p.scope, run, render, item, i);
      PartsAreSerial(p.scope, run, render, item);
      NextIsOpen(p.Seen(), p.mm.files, parts, i, p.skip);
      hide Adds, Links, Orderly, Mine, Delivered, Notice, Find, SentSoFar, PartsOpen, Parts, NoticeOpen, PartOpen,
        Serial, Holding, WellFormed, Owns, Flagged, NoClash;
      outcome := SendPart(p, run, render, parts[i], item.message);
      NextSent(old(p.mm.Receipts()), p.mm.Receipts(), old(p.mm.files), p.mm.files, parts,
               ItemKey(p.scope, run, item.message), item.files, i, old(p.skip), p.skip);
      if Adds(old(p.mm.Receipts()), p.mm.Receipts(), OfPart(KeyOf(parts[i].receipt))) && item.files == [] &&
          !item.message.Repair? {
        NoClashStep(old(p.mm.Receipts()), p.mm.Receipts(), parts, ItemKey(p.scope, run, item.message), i, p.skip);
      }
    }

    /** What it means for the parts before and after. */
    static lemma NextSent(
      before: seq<Published>, after: seq<Published>, files: map<Id, Id>, linked: map<Id, Id>, parts: seq<Part>,
      key: ReceiptKey, attached: seq<Artifact>, i: nat, skipped: bool, skip: bool)
      requires i < |parts| && Serial(parts, key, attached) && Orderly(before)
      requires SentSoFar(before, files, skipped, parts, i)
      requires Adds(before, after, OfNoticed(KeyOf(parts[i].receipt))) && Links(files, linked) && (skipped ==> skip)
      ensures Adds(before, after, OfMessage(key.session, key.run, key.message))
      ensures Adds(before, after, OfPart(KeyOf(parts[i].receipt))) ==>
                Adds(before, after, OfOne(key.session, key.run, key.message))
      ensures IsPlain(key.message) && PartsOpen(before, files, parts, i, skipped) ==>
                PartsOpen(after, linked, parts, i + 1, skip)
      ensures (skip && parts[i].text == "") || Delivered(after, linked, parts[i], skip) ==>
                SentSoFar(after, linked, skip, parts, i + 1)
    {
      hide Adds, Links, Orderly, Delivered, SentSoFar, PartsOpen;
      NoticedIsOfMessage(before, after, KeyOf(parts[i].receipt));
      if Adds(before, after, OfPart(KeyOf(parts[i].receipt))) {
        AddsWiden(before, after, OfPart(KeyOf(parts[i].receipt)), OfOne(key.session, key.run, key.message));
      }
      if IsPlain(key.message) && PartsOpen(before, files, parts, i, skipped) {
        PartsOpenStay(before, after, files, linked, parts, key, attached, i, skipped, skip);
      }
      if (skip && parts[i].text == "") || Delivered(after, linked, parts[i], skip) {
        SentStays(before, after, files, linked, skipped, skip, OfNoticed(KeyOf(parts[i].receipt)), parts, i);
      }
    }

    /** The parts so far are delivered, as far as the flag asks; a lone empty part is dropped when files are given
        up. */
    static ghost predicate SentSoFar(mine: seq<Published>, files: map<Id, Id>, skip: bool, parts: seq<Part>, i: nat)
      requires i <= |parts|
    {
      forall j :: 0 <= j < i ==> (skip && parts[j].text == "") || Delivered(mine, files, parts[j], skip)
    }

    static lemma NextIsOpen(mine: seq<Published>, files: map<Id, Id>, parts: seq<Part>, i: nat, skip: bool)
      requires i < |parts|
      ensures PartsOpen(mine, files, parts, i, skip) ==> PartOpen(mine, files, parts[i], skip)
      ensures NoClash(mine, parts, i, skip) ==> !Find(mine, parts[i], skip).Clash?
      ensures AllDelivered(mine, files, parts, skip) ==> Delivered(mine, files, parts[i], skip)
    {
    }

    static lemma TurnComes(p: Publisher, run: RunView, render: Render, item: Item, i: nat)
      requires var parts := Parts(p.scope, run.session, Run(run.id), item, render);
               i < |parts| && SentSoFar(p.Seen(), p.mm.files, p.skip, parts, i)
      ensures p.InTurn(Parts(p.scope, run.session, Run(run.id), item, render)[i])
    {
      PartIsWellFormed(p.scope, run, render, item, i);
      if i > 0 {
        PartIsWellFormed(p.scope, run, render, item, i - 1);
        PreviousPosted(p, Parts(p.scope, run.session, Run(run.id), item, render), i);
      }
    }

    static lemma PreviousPosted(p: Publisher, parts: seq<Part>, i: nat)
      requires 0 < i < |parts| && SentSoFar(p.Seen(), p.mm.files, p.skip, parts, i) && parts[i - 1].text != ""
      ensures Holding(p.Seen(), KeyOf(parts[i - 1].receipt)) != []
    {
    }

    static lemma SentStays(
      before: seq<Published>, after: seq<Published>, files: map<Id, Id>, linked: map<Id, Id>, skipped: bool, skip: bool,
      own: Owner, parts: seq<Part>, i: nat)
      requires i < |parts| && SentSoFar(before, files, skipped, parts, i)
      requires Orderly(before) && Adds(before, after, own) && Links(files, linked) && (skipped ==> skip)
      requires (skip && parts[i].text == "") || Delivered(after, linked, parts[i], skip)
      ensures SentSoFar(after, linked, skip, parts, i + 1)
    {
      forall j | 0 <= j < i && !(skip && parts[j].text == "") ensures Delivered(after, linked, parts[j], skip) {
        DeliveredStays(before, after, files, linked, own, parts[j], skipped);
        SkipWeakens(after, linked, parts[j], skipped, parts[j].receipt.attachments);
      }
    }

    /** One pass of it: the part; when its files cannot be attached, the notice and the part without them. */
    method SendPart(p: Publisher, run: RunView, render: Render, part: Part, ghost message: MessageKey)
      returns (outcome: Outcome)
      requires p.Synced() && p.InTurn(part) && Flagged(p, run, message)
      requires part.receipt.session == run.session && part.receipt.run == Run(run.id) && part.receipt.message == message
      modifies p`posts, p`skip, p.mm`thread, p.mm`files
      ensures p.Kept(OfNoticed(KeyOf(part.receipt)))
      ensures part.receipt.attachments == [] ==>
                Adds(old(p.mm.Receipts()), p.mm.Receipts(), OfPart(KeyOf(part.receipt)))
      ensures !outcome.Failure? ==> p.Synced()
      ensures outcome.Done? ==> (p.skip && part.text == "") || Delivered(p.Seen(), p.mm.files, part, p.skip)
      ensures outcome.Done? ==> Flagged(p, run, message)
      ensures old(p.skip) ==> p.skip
      ensures p.mm.quiet && Delivered(old(p.Seen()), old(p.mm.files), part, old(p.skip))
              ==> outcome.Done? && p.Still() && p.skip == old(p.skip)
      ensures (p.mm.quiet && WellFormed(p.scope, part) && IsPlain(message)
               && PartOpen(old(p.Seen()), old(p.mm.files), part, old(p.skip))
               && NoticeOpen(p.scope, run, render, old(p.Seen()), old(p.skip)))
              ==> && outcome.Done? && NoticeOpen(p.scope, run, render, p.Seen(), p.skip)
                  && (part.receipt.attachments == [] ==> p.mm.files == old(p.mm.files))
      ensures (p.mm.quiet && WellFormed(p.scope, part) && part.receipt.attachments == []
               && !Find(old(p.Seen()), part, old(p.skip)).Clash?)
              ==> && outcome.Done? && p.skip == old(p.skip) && p.mm.files == old(p.mm.files)
                  && Adds(old(p.mm.Receipts()), p.mm.Receipts(), OfPart(KeyOf(part.receipt)))
      ensures p.mm.quiet && WellFormed(p.scope, part) ==> outcome.Done? || outcome.Conflict?
    {
      hide Adds, Links, Orderly, Mine, Delivered, Notice, Holding, Find, NoticeOpen, WellFormed, FilesOpen, PartOpen,
        Owns;
      ghost var open := p.mm.quiet && WellFormed(p.scope, part) && IsPlain(message)
                        && PartOpen(p.Seen(), p.mm.files, part, p.skip)
                        && NoticeOpen(p.scope, run, render, p.Seen(), p.skip);
      ghost var own := OfNoticed(KeyOf(part.receipt));
      if open {
        OpenIsNoClash(p.Seen(), p.mm.files, part, p.skip);
      }
      outcome := p.Publish(part);
      PartPublished(old(p.mm.Receipts()), p.mm.Receipts(), p.scope, run, render, part, p.skip);
      if !outcome.Upload? {
        return;
      }
      label refused:
      StillInTurn(old(p.mm.Receipts()), p.mm.Receipts(), part.receipt, own);
      outcome := GiveUpPart(p, run, render, part, message);
      NothingToNotice(p.scope, run, render, p.Seen());
      AddsTrans(old(p.mm.Receipts()), old@refused(p.mm.Receipts()), p.mm.Receipts(), own);
      LinksTrans(old(p.mm.files), old@refused(p.mm.files), p.mm.files);
    }

    /** Its way out: the notice, and the part without its files. */
    method GiveUpPart(p: Publisher, run: RunView, render: Render, part: Part, ghost message: MessageKey)
      returns (outcome: Outcome)
      requires p.Synced() && p.InTurn(part)
      requires part.receipt.session == run.session && part.receipt.run == Run(run.id) && part.receipt.message == message
      modifies p`posts, p`skip, p.mm`thread, p.mm`files
      ensures p.Kept(OfNoticed(KeyOf(part.receipt)))
      ensures !outcome.Failure? ==> p.Synced()
      ensures outcome.Done? ==> p.skip && (part.text == "" || Delivered(p.Seen(), p.mm.files, part, p.skip))
      ensures old(p.skip) ==> p.skip
      ensures outcome.Done? ==> Notice(p.Seen(), AttachmentsFailed, Run(run.id))
      ensures p.mm.quiet && WellFormed(p.scope, part) ==> outcome.Done? || outcome.Conflict?
      ensures p.mm.quiet && WellFormed(p.scope, part) && IsPlain(message) && !Find(old(p.Seen()), part, true).Clash? &&
                NoticeOpen(p.scope, run, render, old(p.Seen()), false) ==>
                outcome.Done?
    {
      hide Adds, Links, Orderly, Mine, Delivered, Notice, Holding, Find, NoticeOpen;
      ghost var own := OfNoticed(KeyOf(part.receipt));
      outcome := SendNotice(p, run, render);
      ghost var notice := OfMessage(run.session, Run(run.id), AttachmentsFailed);
      if IsPlain(message) {
        FindStays(old(p.mm.Receipts()), p.mm.Receipts(), notice, part, true);
      }
      AddsWiden(old(p.mm.Receipts()), p.mm.Receipts(), notice, own);
      if !outcome.Done? {
        return;
      }
      p.skip := true;
      if part.text == "" {
        return Done;
      }
      label noticed:
      StillInTurn(old(p.mm.Receipts()), p.mm.Receipts(), part.receipt, own);
      outcome := p.Publish(part);
      PartPublished(old@noticed(p.mm.Receipts()), p.mm.Receipts(), p.scope, run, render, part, p.skip);
      AddsTrans(old(p.mm.Receipts()), old@noticed(p.mm.Receipts()), p.mm.Receipts(), own);
      LinksTrans(old(p.mm.files), old@noticed(p.mm.files), p.mm.files);
    }

    /** The part of Engine.publish that decides which files the run delivers. */
    method Outputs(p: Publisher, run: RunView, render: Render, ghost keys: set<MessageKey>)
      returns (outcome: Outcome, files: seq<Artifact>, stopped: bool)
      requires p.Synced() && Flagged(p, run, EmptyResult)
      requires NoResult(run) && !p.skip ==> AttachmentsFailed in keys
      modifies p`posts, p`skip, p.mm`thread, p.mm`files
      ensures p.Kept(OfItems(Run(run.id), keys))
      ensures !outcome.Failure? ==> p.Synced()
      ensures outcome.Done? ==> Flagged(p, run, EmptyResult) && files == Files(run, stopped) && (stopped ==> p.skip)
      ensures outcome.Done? && run.terminal && !stopped ==> HookOutput(run, run.hooks).Some?
      ensures outcome.Done? ==> stopped == (old(p.skip) || NoResult(run))
      ensures p.mm.quiet && (run.terminal && !old(p.skip) ==> HookOutput(run, run.hooks).Some?)
              ==> outcome.Done? && p.Still() && p.skip == old(p.skip) && stopped == p.skip
      ensures p.mm.quiet && p.scope.root != 0 ==> outcome.Done? || outcome.Conflict?
      ensures p.mm.quiet && p.scope.root != 0 && NoticeOpen(p.scope, run, render, old(p.Seen()), old(p.skip)) ==>
                && outcome.Done? && NoticeOpen(p.scope, run, render, p.Seen(), p.skip)
                && p.mm.files == old(p.mm.files)
                && Adds(old(p.Seen()), p.Seen(), OfMessage(run.session, Run(run.id), AttachmentsFailed))
    {
      AddsNone(p.Seen(), OfItems(Run(run.id), keys));
      AddsNone(p.Seen(), OfMessage(run.session, Run(run.id), AttachmentsFailed));
      stopped := p.NoticeExists(AttachmentsFailed, Run(run.id));
      files := [];
      if run.terminal && !stopped {
        var output := FindHookOutput(run);
        if output.None? {
          outcome := GiveUp(p, run, render);
          AddsWiden(old(p.mm.Receipts()), p.mm.Receipts(), OfMessage(run.session, Run(run.id), AttachmentsFailed),
                    OfItems(Run(run.id), keys));
          return outcome, [], true;
        }
        files := output.value;
      }
      outcome := Done;
    }

    static lemma NoticeIsClear(s: Scope, run: RunView, render: Render, notice: Item, mine: seq<Published>, skip: bool)
      requires notice == Item(AttachmentsFailed, FAILED_TEXT, []) && NoticeOpen(s, run, render, mine, false)
      ensures NoClash(mine, Parts(s, run.session, Run(run.id), notice, render), 0, skip)
    {
      hide NoticeOpen, NoClash, Parts;
      NoticeNoClash(s, run, render, mine, skip);
    }

    /** Without a usable result, the files are given up before any message. */
    method GiveUp(p: Publisher, run: RunView, render: Render) returns (outcome: Outcome)
      requires p.Synced() && Flagged(p, run, EmptyResult)
      modifies p`posts, p`skip, p.mm`thread, p.mm`files
      ensures p.Kept(OfMessage(run.session, Run(run.id), AttachmentsFailed))
      ensures !outcome.Failure? ==> p.Synced()
      ensures outcome.Done? ==> Flagged(p, run, EmptyResult) && p.skip
      ensures p.mm.quiet && p.scope.root != 0 ==> outcome.Done? || outcome.Conflict?
      ensures p.mm.quiet && p.scope.root != 0 && NoticeOpen(p.scope, run, render, old(p.Seen()), false) ==>
                outcome.Done? && p.mm.files == old(p.mm.files)
    {
      hide Adds, Notice, Orderly, NoticeOpen, NoClash, Parts, ItemDone, ItemOpen, Delivered, Owns, Mine, Links, OwnerOf,
        NoticeParts, FAILED_TEXT, KeyOf, Find;
      var notice := Item(AttachmentsFailed, FAILED_TEXT, []);
      if NoticeOpen(p.scope, run, render, p.Seen(), false) {
        NoticeIsClear(p.scope, run, render, notice, p.Seen(), p.skip);
      }
      outcome := Send(p, run, render, notice);
      ItemIsOfMessage(old(p.mm.Receipts()), p.mm.Receipts(), run, notice);
      if !outcome.Done? {
        return;
      }
      NoticeDone(p.scope, run, render, p.Seen(), p.mm.files, p.skip);
      p.skip := true;
    }

    static lemma ItemIsOfMessage(before: seq<Published>, after: seq<Published>, run: RunView, item: Item)
      requires Adds(before, after, OwnerOf(run, item))
      ensures Adds(before, after, OfMessage(run.session, Run(run.id), item.message))
    {
      hide Adds;
      AddsWiden(before, after, OwnerOf(run, item), OfMessage(run.session, Run(run.id), item.message));
    }

    /** One optional item of the run. */
    method SendItem(p: Publisher, run: RunView, render: Render, item: Option<Item>, ghost keys: set<MessageKey>)
      returns (outcome: Outcome)
      requires p.Synced() && Flagged(p, run, EmptyResult)
      requires item.Some? ==> item.value.message != AttachmentsFailed && item.value.message in keys
      requires item.Some? && item.value.files != [] ==> AttachmentsFailed in keys
      modifies p`posts, p`skip, p.mm`thread, p.mm`files
      ensures p.Kept(OfItems(Run(run.id), keys))
      ensures !outcome.Failure? ==> p.Synced()
      ensures outcome.Done? ==> Flagged(p, run, EmptyResult) && (old(p.skip) ==> p.skip)
      ensures outcome.Done? ==> ItemDone(p.scope, run, render, item, p.Seen(), p.mm.files, p.skip)
      ensures (p.mm.quiet && ItemDone(p.scope, run, render, item, old(p.Seen()), old(p.mm.files), old(p.skip))
               && (old(p.skip) && item.Some? ==> item.value.text != "")) ==>
                    outcome.Done? && p.Still() && p.skip == old(p.skip)
      ensures (p.mm.quiet && p.scope.root != 0 && (item.Some? ==> IsPlain(item.value.message))
               && ItemOpen(p.scope, run, render, item, old(p.Seen()), old(p.mm.files), old(p.skip))
               && NoticeOpen(p.scope, run, render, old(p.Seen()), old(p.skip)))
              ==> && outcome.Done? && NoticeOpen(p.scope, run, render, p.Seen(), p.skip)
                  && Sent(old(p.Seen()), p.Seen(), old(p.mm.files), p.mm.files, run, item)
      ensures p.mm.quiet && p.scope.root != 0 ==> outcome.Done? || outcome.Conflict?
    {
      AddsNone(p.Seen(), OfItems(Run(run.id), keys));
      if item.None? {
        return Done;
      }
      outcome := Send(p, run, render, item.value);
      AddsWiden(old(p.mm.Receipts()), p.mm.Receipts(), OwnerOf(run, item.value), OfItems(Run(run.id), keys));
      ItemIsOfMessage(old(p.mm.Receipts()), p.mm.Receipts(), run, item.value);
    }

    /** Its loop over the messages. */
    method SendMessages(
      p: Publisher, run: RunView, render: Render, messages: seq<Message>, files: seq<Artifact>,
      ghost keys: set<MessageKey>)
      returns (outcome: Outcome, answered: bool)
      requires p.Synced() && Flagged(p, run, EmptyResult) && CoversMessages(run, render, messages, files, keys)
      modifies p`posts, p`skip, p.mm`thread, p.mm`files
      ensures p.Kept(OfItems(Run(run.id), keys))
      ensures !outcome.Failure? ==> p.Synced()
      ensures outcome.Done? ==> Flagged(p, run, EmptyResult) && (old(p.skip) ==> p.skip)
      ensures outcome.Done? ==> MessagesDone(p.scope, run, render, messages, files, p.Seen(), p.mm.files, p.skip)
      ensures outcome.Done? ==> (answered <==> HasAnswer(run, render, messages, files))
      ensures (p.mm.quiet &&
                MessagesDone(p.scope, run, render, messages, files, old(p.Seen()), old(p.mm.files), old(p.skip))
               && (old(p.skip) ==> files == [])) ==> outcome.Done? && p.Still() && p.skip == old(p.skip)
      ensures (p.mm.quiet && p.scope.root != 0 && DistinctMessages(messages)
               && MessagesOpen(p.scope, run, render, messages, 0, files, old(p.Seen()), old(p.mm.files), old(p.skip))
               && NoticeOpen(p.scope, run, render, old(p.Seen()), old(p.skip)))
              ==> && outcome.Done? && NoticeOpen(p.scope, run, render, p.Seen(), p.skip)
                  && Adds(old(p.mm.Receipts()), p.mm.Receipts(), OfAnswers(Run(run.id)))
                  && (run.final == 0 ==> p.mm.files == old(p.mm.files))
      ensures p.mm.quiet && p.scope.root != 0 ==> outcome.Done? || outcome.Conflict?
    {
      MessageKinds(run, render, files);
      hide Adds, Links, ItemDone, Notice, Orderly, Mine, ItemOpen, MessagesOpen, DistinctMessages, MessageItem,
        HasAnswer, MessagesDone, Parts, Delivered, NoticeOpen, Sent, Flagged, CoversMessages;
      NoMessages(p.scope, run, render, files, p.Seen(), p.mm.files, p.skip);
      assert messages[..0] == [];
      ghost var own := OfItems(Run(run.id), keys);
      AddsNone(p.Seen(), own);
      LinksNone(p.mm.files);
      ghost var replay := p.mm.quiet &&
          MessagesDone(p.scope, run, render, messages, files, p.Seen(), p.mm.files, p.skip)
                          && (p.skip ==> files == []);
      ghost var open := p.mm.quiet && p.scope.root != 0 && DistinctMessages(messages)
                        && MessagesOpen(p.scope, run, render, messages, 0, files, p.Seen(), p.mm.files, p.skip)
                        && NoticeOpen(p.scope, run, render, p.Seen(), p.skip);
      ghost var answers := OfAnswers(Run(run.id));
      AddsNone(p.Seen(), answers);
      answered := false;
      for i := 0 to |messages|
        invariant open ==>
                    p.mm.quiet && MessagesOpen(p.scope, run, render, messages, i, files, p.Seen(), p.mm.files, p.skip)
        invariant open ==> NoticeOpen(p.scope, run, render, p.Seen(), p.skip)
        invariant open ==> Adds(old(p.mm.Receipts()), p.mm.Receipts(), answers)
        invariant open && run.final == 0 ==> p.mm.files == old(p.mm.files)
        invariant p.Synced() && p.Kept(own) && Flagged(p, run, EmptyResult) && (old(p.skip) ==> p.skip)
        invariant MessagesDone(p.scope, run, render, messages[..i], files, p.Seen(), p.mm.files, p.skip)
        invariant answered <==> HasAnswer(run, render, messages[..i], files)
        invariant replay ==> p.mm.quiet && p.Still() && p.skip == old(p.skip)
      {
        var m := messages[i];
        var item := MessageItem(run, render, m, files);
        HasAnswerStep(run, render, messages, files, i);
        answered := answered || (item.Some? && m.kind.FinalAnswer?);
        CoversMessage(run, render, messages, files, keys, i);
        label before:
        if replay {
          MessageIsDone(p.scope, run, render, messages, i, files, p.Seen(), p.mm.files, p.skip);
        }
        if open {
          MessageOpen(p.scope, run, render, messages, i, files, p.Seen(), p.mm.files, p.skip);
        }
        outcome := SendItem(p, run, render, item, keys);
        AddsTrans(old(p.mm.Receipts()), old@before(p.mm.Receipts()), p.mm.Receipts(), own);
        LinksTrans(old(p.mm.files), old@before(p.mm.files), p.mm.files);
        if open {
          MessageSent(old@before(p.Seen()), p.Seen(), old@before(p.mm.files), p.mm.files, p.scope, run, render,
                      messages, i, files, old@before(p.skip), p.skip);
          AddsTrans(old(p.mm.Receipts()), old@before(p.mm.Receipts()), p.mm.Receipts(), answers);
        }
        if !outcome.Done? {
          return;
        }
        MessagesStay(p.scope, run, render, messages[..i], files, old@before(p.Seen()), p.Seen(),
                     old@before(p.mm.files), p.mm.files, own, old@before(p.skip), p.skip);
        MessagesStep(p.scope, run, render, messages, files, p.Seen(), p.mm.files, p.skip, i);
      }
      assert messages[..|messages|] == messages;
      return Done, answered;
    }

    /** Engine.publish up to its bookkeeping. On a quiet server a run that is settled stays as it is, and one that
        nothing in the thread contradicts is published. */
    method PublishRun(p: Publisher, run: RunView) returns (outcome: Outcome)
      requires p.Synced()
      modifies p`posts, p`skip, p.mm`thread, p.mm`files
      ensures p.Kept(OfRun(Run(run.id)))
      ensures Contract(run.messages, run.id).Some? ==>
                p.Kept(OfItems(Run(run.id), Expected(run, Contract(run.messages, run.id).value,
                                                     old(Notice(p.Seen(), AttachmentsFailed, Run(run.id))))))
      ensures !outcome.Failure? ==> p.Synced()
      ensures outcome.Done? ==> Settled(p.scope, run, p.Seen(), p.mm.files)
      ensures outcome.Done? ==> exists render ::
                RenderOf(run.messages, run.id, render) && Complete(p.scope, run, render, p.Seen(), p.mm.files)
      ensures p.mm.quiet && Settled(p.scope, run, old(p.Seen()), old(p.mm.files)) ==> outcome.Done? && p.Still()
      ensures p.mm.quiet && RunOpen(p.scope, run, old(p.Seen()), old(p.mm.files)) ==> outcome.Done?
      ensures p.mm.quiet && p.scope.root != 0 && Contract(run.messages, run.id).Some? ==>
                outcome.Done? || outcome.Conflict?
    {
      hide Adds, ItemDone, Notice, Orderly, HasAnswer, HookOutput, Contract, MessagesDone, ItemOpen, MessagesOpen,
          DistinctMessages;
      AddsNone(p.Seen(), OfRun(Run(run.id)));
      var contract := FindContract(run.messages, run.id);
      if contract.None? {
        return Failure;
      }
      p.skip := p.NoticeExists(AttachmentsFailed, Run(run.id));
      ghost var keys := Expected(run, contract.value, p.skip);
      ghost var own := OfItems(Run(run.id), keys);
      ExpectedItems(run, contract.value, p.skip);
      AddsNone(p.Seen(), own);
      ghost var open := p.mm.quiet && RunOpen(p.scope, run, p.Seen(), p.mm.files);
      label checked:
      var files, stopped;
      outcome, files, stopped := Outputs(p, run, contract.value, keys);
      AddsWiden(old(p.mm.Receipts()), p.mm.Receipts(), own, OfRun(Run(run.id)));
      if !outcome.Done? {
        return;
      }
      if open {
        RunStaysOpen(old(p.Seen()), p.Seen(), p.scope, run, contract.value, files, p.mm.files, stopped,
                     old@checked(p.skip), p.skip);
      }
      label decided:
      outcome := Deliver(p, run, contract.value, files, stopped, keys);
      AddsTrans(old(p.mm.Receipts()), old@decided(p.mm.Receipts()), p.mm.Receipts(), own);
      AddsWiden(old(p.mm.Receipts()), p.mm.Receipts(), own, OfRun(Run(run.id)));
      if outcome.Done? {
        SettledMeans(p.scope, run, p.Seen(), p.mm.files);
      }
    }

    /** Everything it sends once the files are decided. */
    method Deliver(
      p: Publisher, run: RunView, render: Render, files: seq<Artifact>, stopped: bool, ghost keys: set<MessageKey>)
      returns (outcome: Outcome)
      requires p.Synced() && Flagged(p, run, EmptyResult)
      requires Contract(run.messages, run.id) == Some(render) && files == Files(run, stopped) && (stopped ==> p.skip)
      requires run.terminal && !stopped ==> HookOutput(run, run.hooks).Some?
      requires CoversMessages(run, render, ByPosition(run.messages), files, keys)
      requires CoversClosing(run, files, HasAnswer(run, render, ByPosition(run.messages), files), stopped, keys)
      modifies p`posts, p`skip, p.mm`thread, p.mm`files
      ensures p.Kept(OfItems(Run(run.id), keys))
      ensures !outcome.Failure? ==> p.Synced()
      ensures outcome.Done? ==> Settled(p.scope, run, p.Seen(), p.mm.files)
      ensures (&& p.mm.quiet && (old(p.skip) ==> files == [])
               && MessagesDone(p.scope, run, render, ByPosition(run.messages), files, old(p.Seen()), old(p.mm.files),
                    old(p.skip))
               && ItemDone(p.scope, run, render, FilesItem(run, files), old(p.Seen()), old(p.mm.files), old(p.skip))
               && ItemDone(p.scope, run, render,
                    ClosingItem(run, Answered(run, render, ByPosition(run.messages), files), stopped),
                           old(p.Seen()), old(p.mm.files), old(p.skip)))
              ==> outcome.Done? && p.Still()
      ensures (&& p.mm.quiet && p.scope.root != 0 && DistinctMessages(ByPosition(run.messages))
               && NoticeOpen(p.scope, run, render, old(p.Seen()), old(p.skip))
               && MessagesOpen(p.scope, run, render, ByPosition(run.messages), 0, files, old(p.Seen()),
                    old(p.mm.files), old(p.skip))
               && ClosingOpen(p.scope, run, render, files, HasAnswer(run, render, ByPosition(run.messages), files),
                    stopped, old(p.Seen()), old(p.mm.files), old(p.skip)))
              ==> outcome.Done?
      ensures p.mm.quiet && p.scope.root != 0 ==> outcome.Done? || outcome.Conflict?
    {
      hide Adds, Links, ItemDone, Notice, Orderly, HasAnswer, HookOutput, Contract, MessagesDone, ItemOpen,
          MessagesOpen,
        DistinctMessages, Settled, Mine, ByPosition, Parts, MessageItem, Files, FilesItem, ClosingItem, Delivered,
        CoversMessages, CoversClosing;
      ghost var own := OfItems(Run(run.id), keys);
      var messages := ByPosition(run.messages);
      ghost var open := p.mm.quiet && p.scope.root != 0 && DistinctMessages(messages)
                        && NoticeOpen(p.scope, run, render, p.Seen(), p.skip)
                        && MessagesOpen(p.scope, run, render, messages, 0, files, p.Seen(), p.mm.files, p.skip)
                        && ClosingOpen(p.scope, run, render, files, HasAnswer(run, render, messages, files), stopped,
                             p.Seen(), p.mm.files, p.skip);
      var answered;
      outcome, answered := SendMessages(p, run, render, messages, files, keys);
      if !outcome.Done? {
        return;
      }
      if !run.terminal {
        NothingToClose(p.scope, run, render, files, Answered(run, render, messages, files), stopped, p.Seen(),
            p.mm.files, p.skip);
        SettledAfter(p.scope, run, render, files, p.Seen(), p.mm.files, stopped, p.skip);
        return Done;
      }
      label answering:
      if open {
        ClosingStaysOpen(old(p.Seen()), p.Seen(), old(p.mm.files), p.mm.files, p.scope, run, render, files, answered,
                         stopped, old(p.skip), p.skip);
      }
      outcome := Close(p, run, render, files, stopped, answered, keys);
      AddsTrans(old(p.mm.Receipts()), old@answering(p.mm.Receipts()), p.mm.Receipts(), own);
      LinksTrans(old(p.mm.files), old@answering(p.mm.files), p.mm.files);
    }

    /** What settles a finished run whose messages have been sent. */
    method Close(
      p: Publisher, run: RunView, render: Render, files: seq<Artifact>, stopped: bool, answered: bool,
      ghost keys: set<MessageKey>)
      returns (outcome: Outcome)
      requires p.Synced() && Flagged(p, run, EmptyResult) && run.terminal
      requires Contract(run.messages, run.id) == Some(render) && files == Files(run, stopped) && (stopped ==> p.skip)
      requires !stopped ==> HookOutput(run, run.hooks).Some?
      requires MessagesDone(p.scope, run, render, ByPosition(run.messages), files, p.Seen(), p.mm.files, p.skip)
      requires answered <==> HasAnswer(run, render, ByPosition(run.messages), files)
      requires CoversClosing(run, files, answered, stopped, keys)
      modifies p`posts, p`skip, p.mm`thread, p.mm`files
      ensures p.Kept(OfItems(Run(run.id), keys))
      ensures !outcome.Failure? ==> p.Synced()
      ensures outcome.Done? ==> Settled(p.scope, run, p.Seen(), p.mm.files)
      ensures (&& p.mm.quiet && (old(p.skip) ==> files == [])
               && ItemDone(p.scope, run, render, FilesItem(run, files), old(p.Seen()), old(p.mm.files), old(p.skip))
               && ItemDone(p.scope, run, render, ClosingItem(run, answered || (run.final == 0 && files != []), stopped),
                           old(p.Seen()), old(p.mm.files), old(p.skip)))
              ==> outcome.Done? && p.Still()
      ensures (&& p.mm.quiet && p.scope.root != 0
               && NoticeOpen(p.scope, run, render, old(p.Seen()), old(p.skip))
               && ClosingOpen(p.scope, run, render, files, answered, stopped, old(p.Seen()), old(p.mm.files),
                    old(p.skip)))
              ==> outcome.Done?
      ensures p.mm.quiet && p.scope.root != 0 ==> outcome.Done? || outcome.Conflict?
    {
      hide Adds, Links, ItemDone, Notice, Orderly, HasAnswer, HookOutput, Contract, MessagesDone, ItemOpen, Settled,
          Mine,
        ByPosition, Parts, Files, FilesItem, ClosingItem, Delivered, CoversClosing;
      outcome := SendClosing(p, run, render, files, stopped, answered, keys);
      if !outcome.Done? {
        return;
      }
      MessagesStay(p.scope, run, render, ByPosition(run.messages), files, old(p.Seen()), p.Seen(), old(p.mm.files),
          p.mm.files,
                   OfItems(Run(run.id), keys), old(p.skip), p.skip);
      SettledAfter(p.scope, run, render, files, p.Seen(), p.mm.files, stopped, p.skip);
    }

    /** Its end for a finished run: files without a message, and the closing notice. */
    method SendClosing(
      p: Publisher, run: RunView, render: Render, files: seq<Artifact>, stopped: bool, answered: bool,
      ghost keys: set<MessageKey>)
      returns (outcome: Outcome)
      requires p.Synced() && Flagged(p, run, EmptyResult) && run.terminal
      requires CoversClosing(run, files, answered, stopped, keys)
      modifies p`posts, p`skip, p.mm`thread, p.mm`files
      ensures p.Kept(OfItems(Run(run.id), keys))
      ensures !outcome.Failure? ==> p.Synced()
      ensures outcome.Done? ==> Flagged(p, run, EmptyResult) && (old(p.skip) ==> p.skip)
      ensures outcome.Done? ==> ItemDone(p.scope, run, render, FilesItem(run, files), p.Seen(), p.mm.files, p.skip)
      ensures outcome.Done? ==>
                ItemDone(p.scope, run, render, ClosingItem(run, answered || (run.final == 0 && files != []), stopped),
                                         p.Seen(), p.mm.files, p.skip)
      ensures (&& p.mm.quiet && (old(p.skip) ==> files == [])
               && ItemDone(p.scope, run, render, FilesItem(run, files), old(p.Seen()), old(p.mm.files), old(p.skip))
               && ItemDone(p.scope, run, render, ClosingItem(run, answered || (run.final == 0 && files != []), stopped),
                           old(p.Seen()), old(p.mm.files), old(p.skip)))
              ==> outcome.Done? && p.Still() && p.skip == old(p.skip)
      ensures (&& p.mm.quiet && p.scope.root != 0
               && NoticeOpen(p.scope, run, render, old(p.Seen()), old(p.skip))
               && ClosingOpen(p.scope, run, render, files, answered, stopped, old(p.Seen()), old(p.mm.files),
                    old(p.skip)))
              ==> outcome.Done?
      ensures p.mm.quiet && p.scope.root != 0 ==> outcome.Done? || outcome.Conflict?
    {
      hide Adds, Links, Delivered, Notice, Orderly, Mine, Parts, ItemOpen, ItemDone, NoticeOpen, Sent, Flagged,
        FilesItem, ClosingItem, ClosingOpen, CoversClosing, Owns;
      CoversItems(run, files, answered, stopped, keys);
      ghost var receipts, links := p.mm.Receipts(), p.mm.files;
      ghost var item := ClosingItem(run, answered || (run.final == 0 && files != []), stopped);
      ghost var replay := && p.mm.quiet && (p.skip ==> files == [])
                          && ItemDone(p.scope, run, render, FilesItem(run, files), p.Seen(), p.mm.files, p.skip)
                          && ItemDone(p.scope, run, render, item, p.Seen(), p.mm.files, p.skip);
      var only;
      outcome, only := SendFiles(p, run, render, files, answered, stopped, keys);
      if !outcome.Done? {
        return;
      }
      assert item == ClosingItem(run, answered || only.Some?, stopped);
      assert replay ==> ItemDone(p.scope, run, render, item, p.Seen(), p.mm.files, p.skip);
      outcome := SendStatus(p, run, render, answered || only.Some?, stopped, only, keys, receipts, links);
    }

    /** The files when there is no message for them. */
    method SendFiles(
      p: Publisher, run: RunView, render: Render, files: seq<Artifact>, ghost answered: bool, ghost stopped: bool,
      ghost keys: set<MessageKey>)
      returns (outcome: Outcome, only: Option<Item>)
      requires p.Synced() && Flagged(p, run, EmptyResult) && run.terminal
      requires FilesItem(run, files).Some? ==> AttachmentsOnly in keys && AttachmentsFailed in keys
      modifies p`posts, p`skip, p.mm`thread, p.mm`files
      ensures only == FilesItem(run, files) && (only.Some? <==> run.final == 0 && files != [])
      ensures p.Kept(OfItems(Run(run.id), keys))
      ensures !outcome.Failure? ==> p.Synced()
      ensures outcome.Done? ==> Flagged(p, run, EmptyResult) && (old(p.skip) ==> p.skip)
      ensures outcome.Done? ==> ItemDone(p.scope, run, render, only, p.Seen(), p.mm.files, p.skip)
      ensures (p.mm.quiet && ItemDone(p.scope, run, render, only, old(p.Seen()), old(p.mm.files), old(p.skip))
               && (old(p.skip) ==> files == [])) ==> outcome.Done? && p.Still() && p.skip == old(p.skip)
      ensures (p.mm.quiet && p.scope.root != 0
               && ClosingOpen(p.scope, run, render, files, answered, stopped, old(p.Seen()), old(p.mm.files),
                    old(p.skip))
               && NoticeOpen(p.scope, run, render, old(p.Seen()), old(p.skip)))
              ==> && outcome.Done? && NoticeOpen(p.scope, run, render, p.Seen(), p.skip)
                  && ItemOpen(p.scope, run, render,
                       ClosingItem(run, answered || (run.final == 0 && files != []), stopped), p.Seen(), p.mm.files,
                       p.skip)
      ensures p.mm.quiet && p.scope.root != 0 ==> outcome.Done? || outcome.Conflict?
    {
      hide Adds, Links, Delivered, Notice, Orderly, Mine, Parts, ItemOpen, ItemDone, NoticeOpen, Sent, Flagged;
      only := None;
      if run.final == 0 && files != [] {
        only := Some(Item(AttachmentsOnly, "", files));
      }
      ghost var open := && p.mm.quiet && p.scope.root != 0 && NoticeOpen(p.scope, run, render, p.Seen(), p.skip)
                        && ClosingOpen(p.scope, run, render, files, answered, stopped, p.Seen(), p.mm.files, p.skip);
      if open {
        FilesItemOpen(p.scope, run, render, files, answered, stopped, p.Seen(), p.mm.files, p.skip);
      }
      hide ClosingOpen, FilesItem, ClosingItem;
      outcome := SendItem(p, run, render, only, keys);
      if open {
        ClosingOpenStays(old(p.Seen()), p.Seen(), old(p.mm.files), p.mm.files, p.scope, run, render, files, answered,
                         stopped, old(p.skip), p.skip);
      }
    }

    /** The closing notice. */
    method SendStatus(
      p: Publisher, run: RunView, render: Render, answered: bool, stopped: bool, ghost earlier: Option<Item>,
      ghost keys: set<MessageKey>, ghost receipts: seq<Published>, ghost links: map<Id, Id>)
      returns (outcome: Outcome)
      requires p.Synced() && Flagged(p, run, EmptyResult) && run.terminal
      requires Adds(receipts, p.mm.Receipts(), OfItems(Run(run.id), keys)) && Links(links, p.mm.files)
      requires ClosingItem(run, answered, stopped).Some? ==> ClosingItem(run, answered, stopped).value.message in keys
      modifies p`posts, p`skip, p.mm`thread, p.mm`files
      ensures p.scope == p.mm.scope && p.mm.Clean()
      ensures Adds(receipts, p.mm.Receipts(), OfItems(Run(run.id), keys)) && Links(links, p.mm.files)
      ensures !outcome.Failure? ==> p.Synced()
      ensures outcome.Done? ==> Flagged(p, run, EmptyResult) && (old(p.skip) ==> p.skip)
      ensures outcome.Done? ==>
                ItemDone(p.scope, run, render, ClosingItem(run, answered, stopped), p.Seen(), p.mm.files, p.skip)
      ensures (p.mm.quiet && ItemDone(p.scope, run, render, ClosingItem(run, answered, stopped), old(p.Seen()),
                               old(p.mm.files), old(p.skip)))
              ==> outcome.Done? && p.Still() && p.skip == old(p.skip)
      ensures (p.mm.quiet && p.scope.root != 0 && NoticeOpen(p.scope, run, render, old(p.Seen()), old(p.skip))
               && ItemOpen(p.scope, run, render, ClosingItem(run, answered, stopped), old(p.Seen()), old(p.mm.files),
                    old(p.skip)))
              ==> outcome.Done?
      ensures p.mm.quiet && p.scope.root != 0 ==> outcome.Done? || outcome.Conflict?
      ensures outcome.Done? && ItemDone(p.scope, run, render, earlier, old(p.Seen()), old(p.mm.files), old(p.skip)) ==>
                ItemDone(p.scope, run, render, earlier, p.Seen(), p.mm.files, p.skip)
    {
      hide Adds, Links, Delivered, Notice, Orderly, Mine, Parts, ItemOpen, ItemDone, NoticeOpen, Sent, Flagged;
      var text := None;
      if run.failure != "" {
        text := Some(Item(RunStatus, run.failure, []));
      } else if !answered && !stopped {
        text := Some(Item(EmptyResult, EMPTY_TEXT, []));
      }
      outcome := SendItem(p, run, render, text, keys);
      AddsTrans(receipts, old(p.mm.Receipts()), p.mm.Receipts(), OfItems(Run(run.id), keys));
      LinksTrans(links, old(p.mm.files), p.mm.files);
      if outcome.Done? && ItemDone(p.scope, run, render, earlier, old(p.Seen()), old(p.mm.files), old(p.skip)) {
        ItemKept(p.scope, run, render, earlier, old(p.Seen()), p.Seen(), old(p.mm.files), p.mm.files,
                 OfItems(Run(run.id), keys), old(p.skip), p.skip);
      }
    }

    /** Engine.publish: the queue of unpublished runs follows the outcome, and the flag does not outlive the run. */
    method Publish(p: Publisher, run: RunView) returns (outcome: Outcome)
      requires p.Synced()
      modifies this`outputQueue, p`posts, p`skip, p.mm`thread, p.mm`files
      ensures p.Kept(OfRun(Run(run.id))) && !p.skip
      ensures !outcome.Failure? ==> p.Synced()
      ensures outcome.Done? ==> Settled(p.scope, run, p.Seen(), p.mm.files)
      ensures p.mm.quiet && Settled(p.scope, run, old(p.Seen()), old(p.mm.files)) ==> outcome.Done? && p.Still()
      ensures p.mm.quiet && RunOpen(p.scope, run, old(p.Seen()), old(p.mm.files)) ==> outcome.Done?
      ensures outputQueue == if outcome.Done? then old(outputQueue) - {run.id} else old(outputQueue) + {run.id}
      ensures p.mm.quiet && p.scope.root != 0 && Contract(run.messages, run.id).Some? ==>
                outcome.Done? || outcome.Conflict?
    {
      outcome := PublishRun(p, run);
      p.skip := false;
      outputQueue := if outcome.Done? then outputQueue - {run.id} else outputQueue + {run.id};
    }

    /** The publication phase of one reconciliation: a fresh view of the thread, then every run of the history. The
        receipts stay in order whatever fails, success settles every run, and repeating it on a quiet server changes
        nothing. */
    method PublishAll(p: Publisher, runs: seq<RunView>) returns (outcome: Outcome)
      requires p.scope == p.mm.scope && p.mm.Clean()
      requires DistinctRuns(runs)
      modifies this`outputQueue, p`posts, p`skip, p.mm`thread, p.mm`files
      ensures p.Kept(OfAny)
      ensures outcome.Done? ==> p.Synced() && AllSettled(p.scope, runs, p.mm.Receipts(), p.mm.files)
      ensures p.mm.quiet && AllSettled(p.scope, runs, old(p.mm.Receipts()), old(p.mm.files)) ==>
                outcome.Done? && p.mm.thread == old(p.mm.thread) && p.mm.files == old(p.mm.files)
    {
      hide Adds, Links, Settled, Mine, Orderly;
      AddsNone(p.mm.Receipts(), OfAny);
      LinksNone(p.mm.files);
      var ok := p.Refresh();
      if !ok {
        return Failure;
      }
      ghost var replay := p.mm.quiet && AllSettled(p.scope, runs, p.Seen(), p.mm.files);
      for i := 0 to |runs|
        invariant p.Synced() && p.Kept(OfAny)
        invariant AllSettled(p.scope, runs[..i], p.Seen(), p.mm.files)
        invariant replay ==> p.mm.quiet && p.mm.thread == old(p.mm.thread) && p.mm.files == old(p.mm.files)
      {
        label before:
        outcome := Publish(p, runs[i]);
        AddsWiden(old@before(p.mm.Receipts()), p.mm.Receipts(), OfRun(Run(runs[i].id)), OfAny);
        AddsTrans(old(p.mm.Receipts()), old@before(p.mm.Receipts()), p.mm.Receipts(), OfAny);
        LinksTrans(old(p.mm.files), old@before(p.mm.files), p.mm.files);
        if !outcome.Done? {
          return;
        }
        forall run | run in runs[..i] ensures Settled(p.scope, run, p.Seen(), p.mm.files) {
          SettledStays(p.scope, run, old@before(p.Seen()), p.Seen(), old@before(p.mm.files), p.mm.files, runs[i].id);
        }
        assert runs[..i + 1] == runs[..i] + [runs[i]];
      }
      assert runs[..|runs|] == runs;
      return Done;
    }
  }

  /** Over all attempts so far: one post per receipt key at most, which stays that post once it is there, and no later
      part without the one before it. */
  ghost predicate NeverTwice(history: seq<seq<Published>>) {
    && (forall j :: 0 <= j < |history| ==> Orderly(history[j]))
    && forall i, j :: 0 <= i <= j < |history| ==> Adds(history[i], history[j], OfAny)
  }

  /** Any number of attempts, each of a connector that may have crashed before, whatever each of them meets: `history`
      is what the bot has visibly published before, between and after them. */
  method Attempts(mm: Mattermost, attempts: seq<seq<RunView>>) returns (ghost history: seq<seq<Published>>)
    requires mm.Clean()
    requires forall n :: 0 <= n < |attempts| ==> DistinctRuns(attempts[n])
    modifies mm`thread, mm`files
    ensures |history| == |attempts| + 1 && history[0] == old(mm.Receipts()) && history[|attempts|] == mm.Receipts()
    ensures NeverTwice(history)
  {
    hide Adds, Orderly, Mine, Links;
    history := [mm.Receipts()];
    AddsNone(mm.Receipts(), OfAny);
    for n := 0 to |attempts|
      invariant |history| == n + 1 && history[0] == old(mm.Receipts()) && history[n] == mm.Receipts()
      invariant mm.Clean() && NeverTwice(history)
    {
      var p := new Publisher(mm);
      var engine := new Engine();
      var outcome := engine.PublishAll(p, attempts[n]);
      OnceMore(history, mm.Receipts());
      history := history + [mm.Receipts()];
    }
  }

  lemma OnceMore(history: seq<seq<Published>>, now: seq<Published>)
    requires history != [] && NeverTwice(history) && Orderly(now) && Adds(history[|history| - 1], now, OfAny)
    ensures NeverTwice(history + [now])
  {
    hide Adds, Orderly;
    AddsNone(now, OfAny);
    forall i | 0 <= i < |history| ensures Adds(history[i], now, OfAny) {
      AddsTrans(history[i], history[|history| - 1], now, OfAny);
    }
  }

  /** What that means for one receipt key. */
  lemma OncePosted(history: seq<seq<Published>>, i: nat, j: nat, key: ReceiptKey)
    requires NeverTwice(history) && i <= j < |history|
    ensures |Holding(history[j], key)| <= 1
    ensures Holding(history[i], key) != [] ==> Holding(history[j], key) == Holding(history[i], key)
    ensures key.part > 0 && Holding(history[j], key) != [] ==> Holding(history[j], key.(part := key.part - 1)) != []
  {
    assert Orderly(history[j]) && Adds(history[i], history[j], OfAny);
  }

  predicate DistinctRuns(runs: seq<RunView>) {
    forall i, j :: 0 <= i < j < |runs| ==> runs[i].id != runs[j].id
  }

  ghost predicate AllSettled(s: Scope, runs: seq<RunView>, mine: seq<Published>, files: map<Id, Id>) {
    forall run :: run in runs ==> Settled(s, run, mine, files)
  }
}
