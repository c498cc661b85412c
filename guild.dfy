/** The state of the WhatsApp Guild Manager dashboard (app/page.tsx) and the pure
    transformations its handlers apply to it. Each handler of the component replaces the
    three lists with a new value computed by spread, slice and map; those computations
    are the functions here, and the Dashboard module's class applies them step by step.

    Random choices are parameters: `fires` stands for `Math.random() > 0.7`, and `pick`
    for `Math.floor(Math.random() * n)`, which lies in 0..n-1. The clock is a parameter
    `now`, in milliseconds since the epoch, as Date.now() gives it. */
module Guild {
  import opened JsText

  datatype Option<T> = None | Some(value: T)

  /** Milliseconds since the epoch, as a Date holds them. */
  type Millis = int

  datatype MessageKind = UserMessage | AgentMessage | SystemMessage
  datatype Role = Admin | Regular
  datatype ActionStatus = Success | Pending | Failed

  datatype Message = Message(id: string, sender: string, content: string, timestamp: Millis, kind: MessageKind)
  datatype Member = Member(id: string, name: string, role: Role, warnings: nat, joinDate: Millis)
  datatype AgentAction = AgentAction(id: string, kind: string, description: string, timestamp: Millis, status: ActionStatus)

  /** Everything the component keeps in `useState` that a handler reads or writes. */
  datatype State = State(messages: seq<Message>, members: seq<Member>, actions: seq<AgentAction>, input: string)

  const AgentName := "Guild Agent"
  const UserName := "You"
  const SystemName := "System"

  /** How many old log entries the periodic tick keeps behind the new one: `prev.slice(0, 9)`. */
  const TickKeeps := 9

  /** The five (type, description) templates the periodic tick chooses from. */
  const ActionTemplates: seq<(string, string)> := [
    ("auto_moderation", "Automatically moderated excessive messages"),
    ("member_welcome", "Welcomed new member to the group"),
    ("spam_prevention", "Blocked suspicious link"),
    ("activity_summary", "Generated daily activity report"),
    ("rule_enforcement", "Reminded members about group rules")
  ]

  /** The six canned replies of the simulated agent. */
  const CannedReplies: seq<string> := [
    "Main aapki request process kar raha hoon. Group rules update ho gaye hain.",
    "Samajh gaya! Main automatically handle kar loonga ye task.",
    "Done! Maine spam filter ko update kar diya hai.",
    "Good idea! Main immediately implement kar raha hoon.",
    "Group security settings update ho gayi hain. Sab secure hai.",
    "Main group activity ko monitor kar raha hoon. Sab theek chal raha hai."
  ]

  /** `s.slice(0, n)`: the first n elements, or all of `s` when it is shorter. */
  function Take<T>(s: seq<T>, n: nat): (r: seq<T>)
    ensures |r| == (if |s| < n then |s| else n)
    ensures r == s[..|r|]
  {
    if |s| <= n then s else s[..n]
  }

  // ---------------------------------------------------------------- periodic tick

  /** The action the tick records when its gate passes and it picked template `pick`. */
  function TickAction(pick: nat, now: nat): (a: AgentAction)
    requires pick < |ActionTemplates|
    ensures a.status == Success && a.timestamp == now
    ensures (a.kind, a.description) in ActionTemplates
  {
    AgentAction(NatToString(now), ActionTemplates[pick].0, ActionTemplates[pick].1, now, Success)
  }

  /** One run of the interval callback. When the gate passes, the new action goes to the
      front and at most nine older entries stay behind it, in their old order; otherwise
      nothing changes. */
  function TickStep(s: State, fires: bool, pick: nat, now: nat): (r: State)
    requires pick < |ActionTemplates|
    ensures r.messages == s.messages && r.members == s.members && r.input == s.input
    ensures !fires ==> r == s
    ensures fires ==> |r.actions| == 1 + (if |s.actions| < TickKeeps then |s.actions| else TickKeeps)
    ensures fires ==> |r.actions| <= TickKeeps + 1
    ensures fires ==> r.actions[0] == TickAction(pick, now) && r.actions[0].status == Success
    ensures fires ==> forall i :: 1 <= i < |r.actions| ==> r.actions[i] == s.actions[i - 1]
  {
    if fires then s.(actions := [TickAction(pick, now)] + Take(s.actions, TickKeeps)) else s
  }

  // ---------------------------------------------------------------- send and reply

  /** The message `handleSendMessage` appends for input text `text`. */
  function UserMessageOf(text: string, now: nat): Message {
    Message(NatToString(now), UserName, text, now, UserMessage)
  }

  /** `handleSendMessage`: blank input (all whitespace once trimmed) changes nothing;
      any other input is appended, untrimmed, as a message from "You", and the input is
      cleared. */
  function SendStep(s: State, now: nat): (r: State)
    ensures IsBlank(s.input) ==> r == s
    ensures !IsBlank(s.input) ==> r.input == "" && r.members == s.members && r.actions == s.actions
    ensures !IsBlank(s.input) ==> |r.messages| == |s.messages| + 1 && r.messages[..|s.messages|] == s.messages
    ensures !IsBlank(s.input) ==> var m := r.messages[|s.messages|];
      m.sender == "You" && m.kind == UserMessage && m.content == s.input
    ensures !IsBlank(s.input) ==> r.messages[|s.messages|] == UserMessageOf(s.input, now)
  {
    TrimEmptyIffBlank(s.input);
    if Trim(s.input) == [] then s
    else s.(messages := s.messages + [UserMessageOf(s.input, now)], input := "")
  }

  /** The agent message the delayed callback appends: canned reply `pick`, with id
      `(Date.now() + 1).toString()`. Nothing the user typed goes into it. */
  function ReplyMessage(pick: nat, now: nat): (m: Message)
    requires pick < |CannedReplies|
    ensures m.sender == "Guild Agent" && m.kind == AgentMessage && m.timestamp == now
    ensures m.content in CannedReplies
  {
    Message(NatToString(now + 1), AgentName, CannedReplies[pick], now, AgentMessage)
  }

  /** The `setTimeout` callback of `handleSendMessage`: exactly one agent message goes on
      the end, and nothing else changes. */
  function ReplyStep(s: State, pick: nat, now: nat): (r: State)
    requires pick < |CannedReplies|
    ensures r.members == s.members && r.actions == s.actions && r.input == s.input
    ensures |r.messages| == |s.messages| + 1 && r.messages[..|s.messages|] == s.messages
    ensures r.messages[|s.messages|] == ReplyMessage(pick, now)
  {
    s.(messages := s.messages + [ReplyMessage(pick, now)])
  }

  // ---------------------------------------------------------------- warn member

  /** `members.find(m => m.id === id)`: the first member with that id, if any. */
  function FindMember(ms: seq<Member>, id: string): (r: Option<Member>)
    ensures r.None? <==> forall i :: 0 <= i < |ms| ==> ms[i].id != id
    ensures r.Some? ==>
      (exists k :: 0 <= k < |ms| && ms[k] == r.value && ms[k].id == id && forall j :: 0 <= j < k ==> ms[j].id != id)
  {
    if ms == [] then None
    else if ms[0].id == id then Some(ms[0])
    else
      var r := FindMember(ms[1..], id);
      if r.Some? then
        var k :| 0 <= k < |ms[1..]| && ms[1..][k] == r.value && ms[1..][k].id == id
          && forall j :: 0 <= j < k ==> ms[1..][j].id != id;
        assert ms[k + 1] == r.value && forall j :: 0 <= j < k + 1 ==> ms[j].id != id;
        r
      else r
  }

  /** `${member?.name}`: the name of the member found, or "undefined" when none has the id. */
  function NameOrUndefined(ms: seq<Member>, id: string): (name: string)
    ensures (forall i :: 0 <= i < |ms| ==> ms[i].id != id) ==> name == "undefined"
    ensures forall k :: 0 <= k < |ms| && ms[k].id == id && (forall j :: 0 <= j < k ==> ms[j].id != id) ==>
      name == ms[k].name
  {
    match FindMember(ms, id)
    case Some(m) => m.name
    case None => "undefined"
  }

  /** The callback `prev.map(...)` applies: one more warning for a member with that id. */
  function Warned(m: Member, id: string): Member {
    if m.id == id then m.(warnings := m.warnings + 1) else m
  }

  /** `prev.map(m => m.id === id ? { ...m, warnings: m.warnings + 1 } : m)`. The list keeps
      its length and order; exactly the members with that id gain one warning, and no
      other field of any member changes. The role is not looked at. */
  function WarnMembers(ms: seq<Member>, id: string): (r: seq<Member>)
    ensures |r| == |ms|
    ensures forall i :: 0 <= i < |ms| ==>
      r[i].id == ms[i].id && r[i].name == ms[i].name && r[i].role == ms[i].role
      && r[i].joinDate == ms[i].joinDate
      && r[i].warnings == ms[i].warnings + (if ms[i].id == id then 1 else 0)
  {
    if ms == [] then [] else [Warned(ms[0], id)] + WarnMembers(ms[1..], id)
  }

  const WarningActionKind := "warning_issued"

  /** The action `handleWarnMember` records. */
  function WarningAction(name: string, now: nat): AgentAction {
    AgentAction(NatToString(now), WarningActionKind, "Warning issued to " + name, now, Success)
  }

  /** The system message `handleWarnMember` appends. */
  function WarningMessage(name: string, now: nat): Message {
    Message(NatToString(now), SystemName, "\U{26A0}\U{FE0F} Guild Agent ne " + name + " ko warning di hai.", now, SystemMessage)
  }

  /** `handleWarnMember`. The name is looked up in the members as they were before the
      update. The log gains one `warning_issued` entry at the front and is not cut, and
      one system message goes on the end, whether or not any member has the id. */
  function WarnStep(s: State, id: string, now: nat): (r: State)
    ensures r.members == WarnMembers(s.members, id) && r.input == s.input
    ensures |r.actions| == |s.actions| + 1 && r.actions[1..] == s.actions
    ensures r.actions[0].kind == "warning_issued" && r.actions[0].status == Success
    ensures |r.messages| == |s.messages| + 1 && r.messages[..|s.messages|] == s.messages
    ensures r.messages[|s.messages|].kind == SystemMessage && r.messages[|s.messages|].sender == "System"
    ensures r.actions[0] == WarningAction(NameOrUndefined(s.members, id), now)
    ensures r.messages[|s.messages|] == WarningMessage(NameOrUndefined(s.members, id), now)
  {
    var name := NameOrUndefined(s.members, id);
    State(s.messages + [WarningMessage(name, now)],
          WarnMembers(s.members, id),
          [WarningAction(name, now)] + s.actions,
          s.input)
  }

  /** A warn for an id that the first matching member at `k` carries names that member in
      both the log entry and the system message. */
  lemma WarnNamesMember(s: State, k: nat, now: nat)
    requires k < |s.members| && forall j :: 0 <= j < k ==> s.members[j].id != s.members[k].id
    ensures var r := WarnStep(s, s.members[k].id, now);
      r.actions[0].description == "Warning issued to " + s.members[k].name
      && r.messages[|s.messages|].content == "\U{26A0}\U{FE0F} Guild Agent ne " + s.members[k].name + " ko warning di hai."
  {
  }

  /** A warn for an id no member has leaves the members as they were, but still logs an
      action and posts a system message, both naming "undefined". */
  lemma WarnUnknownNamesUndefined(s: State, id: string, now: nat)
    requires forall i :: 0 <= i < |s.members| ==> s.members[i].id != id
    ensures var r := WarnStep(s, id, now);
      r.members == s.members
      && r.actions[0].description == "Warning issued to " + "undefined"
      && r.messages[|s.messages|].content == "\U{26A0}\U{FE0F} Guild Agent ne " + "undefined" + " ko warning di hai."
  {
    WarnUnchangedIffUnknown(s.members, id);
  }

  // ---------------------------------------------------------------- statistics

  /** `members.filter(m => m.warnings < 2).length`. */
  function ActiveCount(ms: seq<Member>): (r: nat)
    ensures r <= |ms|
    ensures r == |ms| <==> forall i :: 0 <= i < |ms| ==> ms[i].warnings < 2
  {
    if ms == [] then 0
    else (if ms[0].warnings < 2 then 1 else 0) + ActiveCount(ms[1..])
  }

  /** `members.reduce((sum, m) => sum + m.warnings, 0)`. */
  function TotalWarnings(ms: seq<Member>): (r: nat)
    ensures forall i :: 0 <= i < |ms| ==> ms[i].warnings <= r
    ensures r == 0 <==> forall i :: 0 <= i < |ms| ==> ms[i].warnings == 0
  {
    if ms == [] then 0 else ms[0].warnings + TotalWarnings(ms[1..])
  }

  datatype Stats = Stats(totalMembers: nat, activeMembers: nat, totalWarnings: nat, agentActions: nat)

  /** The `stats` object the component derives on every render. */
  function ComputeStats(s: State): (r: Stats)
    ensures r.totalMembers == |s.members| && r.agentActions == |s.actions|
    ensures r.activeMembers <= r.totalMembers
    ensures r.activeMembers == r.totalMembers <==> forall i :: 0 <= i < |s.members| ==> s.members[i].warnings < 2
    ensures r.totalWarnings == 0 <==> forall i :: 0 <= i < |s.members| ==> s.members[i].warnings == 0
  {
    Stats(|s.members|, ActiveCount(s.members), TotalWarnings(s.members), |s.actions|)
  }

  /** How many members carry id `id`. */
  function CountId(ms: seq<Member>, id: string): nat {
    if ms == [] then 0 else (if ms[0].id == id then 1 else 0) + CountId(ms[1..], id)
  }

  /** A warn raises the total by the number of members that carry the id. */
  lemma {:induction false} WarnTotalWarnings(ms: seq<Member>, id: string)
    ensures TotalWarnings(WarnMembers(ms, id)) == TotalWarnings(ms) + CountId(ms, id)
  {
    if ms != [] {
      WarnTotalWarnings(ms[1..], id);
      assert WarnMembers(ms, id)[1..] == WarnMembers(ms[1..], id);
    }
  }

  /** No two members share an id. The seed list has this, and no operation changes ids. */
  ghost predicate UniqueIds(ms: seq<Member>) {
    forall i, j :: 0 <= i < j < |ms| ==> ms[i].id != ms[j].id
  }

  lemma {:induction false} CountIdOfUnique(ms: seq<Member>, k: nat)
    requires UniqueIds(ms) && k < |ms|
    ensures CountId(ms, ms[k].id) == 1
  {
    if k == 0 {
      CountIdAbsent(ms[1..], ms[0].id);
    } else {
      CountIdOfUnique(ms[1..], k - 1);
    }
  }

  lemma {:induction false} CountIdAbsent(ms: seq<Member>, id: string)
    requires forall i :: 0 <= i < |ms| ==> ms[i].id != id
    ensures CountId(ms, id) == 0
  {
    if ms != [] {
      CountIdAbsent(ms[1..], id);
    }
  }

  /** With unique ids, warning a member that exists raises the total warnings by
      exactly one. */
  lemma WarnExistingRaisesTotalByOne(ms: seq<Member>, k: nat)
    requires UniqueIds(ms) && k < |ms|
    ensures TotalWarnings(WarnMembers(ms, ms[k].id)) == TotalWarnings(ms) + 1
  {
    WarnTotalWarnings(ms, ms[k].id);
    CountIdOfUnique(ms, k);
  }

  /** The same, for an id given by value: if some member has it, the total rises by one. */
  lemma WarnKnownRaisesTotalByOne(ms: seq<Member>, id: string)
    requires UniqueIds(ms)
    ensures (exists k :: 0 <= k < |ms| && ms[k].id == id) ==>
      TotalWarnings(WarnMembers(ms, id)) == TotalWarnings(ms) + 1
  {
    if k :| 0 <= k < |ms| && ms[k].id == id {
      WarnExistingRaisesTotalByOne(ms, k);
    }
  }

  /** The members come back unchanged exactly when no member has the id. */
  lemma WarnUnchangedIffUnknown(ms: seq<Member>, id: string)
    ensures WarnMembers(ms, id) == ms <==> forall i :: 0 <= i < |ms| ==> ms[i].id != id
  {
    var r := WarnMembers(ms, id);
    if forall i :: 0 <= i < |ms| ==> ms[i].id != id {
      assert forall i :: 0 <= i < |ms| ==> r[i] == ms[i];
    } else {
      var i :| 0 <= i < |ms| && ms[i].id == id;
      assert r[i].warnings != ms[i].warnings;
    }
  }

  /** A warn never adds an active member: the active count can only fall. */
  lemma {:induction false} WarnActiveNotHigher(ms: seq<Member>, id: string)
    ensures ActiveCount(WarnMembers(ms, id)) <= ActiveCount(ms)
  {
    if ms != [] {
      WarnActiveNotHigher(ms[1..], id);
      assert WarnMembers(ms, id)[1..] == WarnMembers(ms[1..], id);
    }
  }

  /** The admin exclusion lives only in the view, which offers the warn button for
      members whose role is not admin (app/page.tsx:376). Under that restriction, and
      with unique ids, a warn leaves every admin as it was. */
  lemma WarnFromViewSparesAdmins(ms: seq<Member>, k: nat)
    requires UniqueIds(ms) && k < |ms| && ms[k].role != Admin
    ensures forall i :: 0 <= i < |ms| && ms[i].role == Admin ==> WarnMembers(ms, ms[k].id)[i] == ms[i]
  {
    var r := WarnMembers(ms, ms[k].id);
    forall i | 0 <= i < |ms| && ms[i].role == Admin ensures r[i] == ms[i] {
      assert i != k;
      assert ms[i].id != ms[k].id;
    }
  }

  // ---------------------------------------------------------------- runs of events

  /** One thing that can happen to the dashboard: an interval tick, a keystroke that sets
      the input box, a send, a delayed agent reply, or a click on a warn button. */
  datatype Event =
    | Tick(fires: bool, pick: nat, now: nat)
    | SetInput(text: string)
    | Send(now: nat)
    | Reply(pick: nat, now: nat)
    | Warn(memberId: string, now: nat)

  /** The random indices lie where `Math.floor(Math.random() * length)` puts them. */
  predicate WellFormed(e: Event) {
    match e
    case Tick(_, pick, _) => pick < |ActionTemplates|
    case Reply(pick, _) => pick < |CannedReplies|
    case _ => true
  }

  function Step(s: State, e: Event): State
    requires WellFormed(e)
  {
    match e
    case Tick(fires, pick, now) => TickStep(s, fires, pick, now)
    case SetInput(text) => s.(input := text)
    case Send(now) => SendStep(s, now)
    case Reply(pick, now) => ReplyStep(s, pick, now)
    case Warn(id, now) => WarnStep(s, id, now)
  }

  function Run(s: State, es: seq<Event>): State
    requires forall i :: 0 <= i < |es| ==> WellFormed(es[i])
    decreases es
  {
    if es == [] then s else Run(Step(s, es[0]), es[1..])
  }

  /** `b` is `a` with no warning count lowered and nothing else about any member changed. */
  ghost predicate NoWarningLowered(a: seq<Member>, b: seq<Member>) {
    |a| == |b| && forall i :: 0 <= i < |a| ==>
      b[i].id == a[i].id && b[i].name == a[i].name && b[i].role == a[i].role
      && b[i].joinDate == a[i].joinDate && a[i].warnings <= b[i].warnings
  }

  lemma StepNeverLowersWarnings(s: State, e: Event)
    requires WellFormed(e)
    ensures NoWarningLowered(s.members, Step(s, e).members)
  {
  }

  /** Warning counts only go up: after any sequence of events every member is still there,
      in the same place, with the same id, name, role and join date, and at least as many
      warnings. */
  lemma {:induction false} RunNeverLowersWarnings(s: State, es: seq<Event>)
    requires forall i :: 0 <= i < |es| ==> WellFormed(es[i])
    ensures NoWarningLowered(s.members, Run(s, es).members)
    decreases es
  {
    if es != [] {
      StepNeverLowersWarnings(s, es[0]);
      RunNeverLowersWarnings(Step(s, es[0]), es[1..]);
    }
  }

  lemma StepKeepsMessageHistory(s: State, e: Event)
    requires WellFormed(e)
    ensures |s.messages| <= |Step(s, e).messages| && Step(s, e).messages[..|s.messages|] == s.messages
  {
  }

  /** The chat history is append-only: after any sequence of events the old messages are
      still the first ones, unchanged and in order. */
  lemma {:induction false} RunKeepsMessageHistory(s: State, es: seq<Event>)
    requires forall i :: 0 <= i < |es| ==> WellFormed(es[i])
    ensures |s.messages| <= |Run(s, es).messages| && Run(s, es).messages[..|s.messages|] == s.messages
    decreases es
  {
    if es != [] {
      var t := Step(s, es[0]);
      StepKeepsMessageHistory(s, es[0]);
      RunKeepsMessageHistory(t, es[1..]);
      var u := Run(t, es[1..]);
      assert u == Run(s, es);
      assert u.messages[..|s.messages|] == u.messages[..|t.messages|][..|s.messages|];
    }
  }

  /** Ids stay unique whatever happens, because no event changes a member's id. */
  lemma {:induction false} RunKeepsIdsUnique(s: State, es: seq<Event>)
    requires UniqueIds(s.members)
    requires forall i :: 0 <= i < |es| ==> WellFormed(es[i])
    ensures UniqueIds(Run(s, es).members)
  {
    RunNeverLowersWarnings(s, es);
  }

  /** Running three events is applying them one after the other. */
  lemma RunThree(s: State, e1: Event, e2: Event, e3: Event)
    requires WellFormed(e1) && WellFormed(e2) && WellFormed(e3)
    ensures Run(s, [e1, e2, e3]) == Step(Step(Step(s, e1), e2), e3)
  {
    var es := [e1, e2, e3];
    assert es[1..] == [e2, e3] && es[1..][1..] == [e3] && es[1..][1..][1..] == [];
    var s1 := Step(s, e1);
    var s2 := Step(s1, e2);
    assert Run(s2, [e3]) == Run(Step(s2, e3), []);
    assert Run(s1, [e2, e3]) == Run(s2, [e3]);
    assert Run(s, es) == Run(s1, [e2, e3]);
  }

  /** Typing a non-blank text, sending it and receiving the delayed reply adds exactly two
      messages: the text as typed, from "You", then canned reply `pick` from the agent,
      which does not depend on the text. The input box ends up empty. */
  lemma TypeSendReply(s: State, text: string, sent: nat, pick: nat, replied: nat)
    requires !IsBlank(text) && pick < |CannedReplies|
    ensures var r := Run(s, [SetInput(text), Send(sent), Reply(pick, replied)]);
      r.messages == s.messages + [UserMessageOf(text, sent), ReplyMessage(pick, replied)]
      && r.members == s.members && r.actions == s.actions && r.input == ""
  {
    RunThree(s, SetInput(text), Send(sent), Reply(pick, replied));
    var s2 := SendStep(s.(input := text), sent);
    assert s2.messages == s.messages + [UserMessageOf(text, sent)];
  }

  /** Only warns lengthen the log past ten; the next tick that fires cuts it back to ten. */
  lemma {:induction false} TickAfterWarnsIsBounded(s: State, ids: seq<string>, now: nat, pick: nat)
    requires pick < |ActionTemplates|
    ensures var w := RunWarns(s, ids, now);
      |w.actions| == |s.actions| + |ids| && |TickStep(w, true, pick, now).actions| <= 10
    decreases ids
  {
    if ids != [] {
      TickAfterWarnsIsBounded(WarnStep(s, ids[0], now), ids[1..], now, pick);
    }
  }

  /** A run of warns, one per id, all at the same moment. */
  function RunWarns(s: State, ids: seq<string>, now: nat): State
    decreases ids
  {
    if ids == [] then s else RunWarns(WarnStep(s, ids[0], now), ids[1..], now)
  }
}
