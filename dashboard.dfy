/** The component `WhatsAppGuildManager` as a store: its `useState` cells are fields, and
    each handler or timer callback is a method that replaces them. Every method states
    its new state as the matching step of the Guild module applied to the old state. */
module Dashboard {
  import opened JsText
  import opened Guild
  import opened SeedData

  class GuildManager {
    var messages: seq<Message>
    var members: seq<Member>
    var actions: seq<AgentAction>
    var input: string

    /** The current values of the state cells. */
    function Snapshot(): State
      reads this
    {
      State(messages, members, actions, input)
    }

    /** Member ids are unique; the seed has it and nothing changes an id. WarnMember
        relies on it to raise the total warnings by exactly one. */
    ghost predicate Valid()
      reads this
    {
      UniqueIds(members)
    }

    /** The initial `useState` values, with the component mounted at time `now`. */
    constructor (now: nat)
      ensures Valid() && Snapshot() == Seed(now)
    {
      messages := Seed(now).messages;
      members := Seed(now).members;
      actions := Seed(now).actions;
      input := "";
      SeedIdsUnique();
    }

    /** The interval callback. `fires` is the outcome of `Math.random() > 0.7`, `pick`
        the template index drawn when it passes. */
    method Tick(fires: bool, pick: nat, now: nat)
      requires Valid() && pick < |ActionTemplates|
      modifies this
      ensures Valid() && Snapshot() == TickStep(old(Snapshot()), fires, pick, now)
    {
      if fires {
        var template := ActionTemplates[pick];
        var kept := if |actions| <= 9 then actions else actions[..9];
        actions := [AgentAction(NatToString(now), template.0, template.1, now, Success)] + kept;
      }
    }

    /** The input box's `onChange`. */
    method SetInput(text: string)
      requires Valid()
      modifies this
      ensures Valid() && Snapshot() == old(Snapshot()).(input := text)
    {
      input := text;
    }

    /** `handleSendMessage`. Returns whether the delayed agent reply was scheduled, which
        is exactly when the input was not blank. */
    method SendMessage(now: nat) returns (replyScheduled: bool)
      requires Valid()
      modifies this
      ensures Valid() && Snapshot() == SendStep(old(Snapshot()), now)
      ensures replyScheduled <==> !IsBlank(old(input))
    {
      ghost var before := Snapshot();
      TrimEmptyIffBlank(input);
      if Trim(input) == [] {
        return false;
      }
      messages := messages + [UserMessageOf(input, now)];
      input := "";
      replyScheduled := true;
      assert Snapshot() == before.(messages := before.messages + [UserMessageOf(before.input, now)], input := "");
    }

    /** The `setTimeout` callback that `handleSendMessage` schedules; `pick` is the reply
        index drawn. */
    method DeliverReply(pick: nat, now: nat)
      requires Valid() && pick < |CannedReplies|
      modifies this
      ensures Valid() && Snapshot() == ReplyStep(old(Snapshot()), pick, now)
    {
      messages := messages + [Message(NatToString(now + 1), AgentName, CannedReplies[pick], now, AgentMessage)];
    }

    /** `handleWarnMember`. */
    method WarnMember(memberId: string, now: nat)
      requires Valid()
      modifies this
      ensures Valid() && Snapshot() == WarnStep(old(Snapshot()), memberId, now)
      ensures (exists k :: 0 <= k < |old(members)| && old(members)[k].id == memberId) ==>
        TotalWarnings(members) == TotalWarnings(old(members)) + 1
    {
      ghost var before := Snapshot();
      var name := NameOrUndefined(members, memberId);
      members := WarnMembers(members, memberId);
      actions := [WarningAction(name, now)] + actions;
      messages := messages + [WarningMessage(name, now)];
      assert Snapshot() == State(before.messages + [WarningMessage(name, now)],
        WarnMembers(before.members, memberId), [WarningAction(name, now)] + before.actions, before.input);
      WarnKnownRaisesTotalByOne(before.members, memberId);
    }
  }
}
