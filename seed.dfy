/** The state the component starts from, and the concrete scenarios it supports. */
module SeedData {
  import opened JsText
  import opened Guild

  const WelcomeText := "Namaste! Main aapke WhatsApp group ka Guild Manager hoon. Main automatically spam detect karta hoon, rules enforce karta hoon, aur group ko organize rakhta hoon."

  /** The five members the group starts with. Join dates are the given days at
      midnight UTC. */
  const SeedMembers: seq<Member> := [
    Member("1", "Rahul Kumar", Admin, 0, 1705276800000),
    Member("2", "Priya Sharma", Regular, 0, 1708387200000),
    Member("3", "Amit Patel", Regular, 1, 1710028800000),
    Member("4", "Sneha Gupta", Regular, 0, 1711324800000),
    Member("5", "Vikram Singh", Regular, 2, 1712275200000)
  ]

  /** The initial values of the three lists and the empty input box, for a component
      mounted at `now`. */
  function Seed(now: nat): (s: State)
    ensures s.members == SeedMembers && |s.members| == 5 && s.input == ""
    ensures |s.messages| == 1 && s.messages[0].sender == "Guild Agent" && s.messages[0].kind == AgentMessage
    ensures s.messages[0].timestamp == now
    ensures |s.actions| == 3 && forall i :: 0 <= i < 3 ==> s.actions[i].status == Success
    ensures s.actions[0].timestamp == now - 300000 && s.actions[1].timestamp == now - 180000
      && s.actions[2].timestamp == now - 60000
  {
    State(
      [Message("1", AgentName, WelcomeText, now, AgentMessage)],
      SeedMembers,
      [ AgentAction("1", "spam_detected", "Detected spam message from user", now - 300000, Success),
        AgentAction("2", "warning_issued", "Warned member for inappropriate content", now - 180000, Success),
        AgentAction("3", "auto_moderation", "Deleted promotional link", now - 60000, Success) ],
      "")
  }

  lemma SeedIdsUnique()
    ensures UniqueIds(SeedMembers)
  {
  }

  /** The active count of a five-member list, entry by entry. */
  lemma ActiveCountOfFive(ws: seq<Member>, a: nat)
    requires |ws| == 5
    requires a == (if ws[0].warnings < 2 then 1 else 0) + (if ws[1].warnings < 2 then 1 else 0)
      + (if ws[2].warnings < 2 then 1 else 0) + (if ws[3].warnings < 2 then 1 else 0)
      + (if ws[4].warnings < 2 then 1 else 0)
    ensures ActiveCount(ws) == a
  {
    assert ws[4..][1..] == [];
    assert ActiveCount(ws[4..]) == (if ws[4].warnings < 2 then 1 else 0);
    assert ws[3..][1..] == ws[4..];
    assert ws[2..][1..] == ws[3..];
    assert ws[1..][1..] == ws[2..];
    assert ActiveCount(ws[2..]) == (if ws[2].warnings < 2 then 1 else 0)
      + (if ws[3].warnings < 2 then 1 else 0) + (if ws[4].warnings < 2 then 1 else 0);
  }

  /** Of the seed members, four have fewer than two warnings, and they carry three
      warnings in all. */
  lemma SeedMemberCounts()
    ensures ActiveCount(SeedMembers) == 4 && TotalWarnings(SeedMembers) == 3
  {
    var ms := SeedMembers;
    ActiveCountOfFive(ms, 4);
    assert ms[1..][1..][1..][1..][1..] == [];
  }

  /** On the seed: five members, four of them with fewer than two warnings, three
      warnings in all, three logged actions. */
  lemma SeedStats(now: nat)
    ensures ComputeStats(Seed(now)) == Stats(5, 4, 3, 3)
  {
    SeedMemberCounts();
  }

  /** The seed members after a warn of id "3": only "Amit Patel" changes, from one
      warning to two. */
  lemma SeedMembersWarnedAmit()
    ensures var ws := WarnMembers(SeedMembers, "3");
      |ws| == 5 && ws[2].name == "Amit Patel"
      && ws[0].warnings == 0 && ws[1].warnings == 0 && ws[2].warnings == 2
      && ws[3].warnings == 0 && ws[4].warnings == 2
  {
    var ms := SeedMembers;
    assert ms[0].id != "3" && ms[1].id != "3" && ms[2].id == "3" && ms[3].id != "3" && ms[4].id != "3";
  }

  /** After a warn of id "3" three seed members have fewer than two warnings. */
  lemma SeedMembersWarnedAmitActive(ms: seq<Member>)
    requires ms == SeedMembers
    ensures ActiveCount(WarnMembers(ms, "3")) == 3
  {
    SeedMembersWarnedAmit();
    ActiveCountOfFive(WarnMembers(ms, "3"), 3);
  }

  /** After a warn of id "3" the seed members carry four warnings in all. */
  lemma SeedMembersWarnedAmitTotal(ms: seq<Member>)
    requires ms == SeedMembers
    ensures TotalWarnings(WarnMembers(ms, "3")) == 4
  {
    SeedIdsUnique();
    SeedMemberCounts();
    assert ms[2].id == "3";
    WarnExistingRaisesTotalByOne(ms, 2);
  }

  /** Warning "Amit Patel" (id "3", one warning to start with) in a group that still has
      its seed members takes him to two warnings, and the totals move from 4 active /
      3 warnings to 3 / 4. */
  lemma SeedWarnAmitPatelCounts(s: State, later: nat)
    requires s.members == SeedMembers
    ensures var r := WarnStep(s, "3", later);
      r.members[2].name == "Amit Patel" && r.members[2].warnings == 2
      && ComputeStats(r) == Stats(5, 3, 4, |s.actions| + 1)
  {
    SeedMembersWarnedAmit();
    SeedMembersWarnedAmitActive(s.members);
    SeedMembersWarnedAmitTotal(s.members);
  }

  /** Warning "Amit Patel" puts a `warning_issued` entry naming him at the front of the
      log and a system message naming him at the end of the chat. */
  lemma SeedWarnAmitPatelRecords(s: State, later: nat)
    requires s.members == SeedMembers
    ensures var r := WarnStep(s, "3", later);
      r.actions[0].kind == "warning_issued" && r.actions[0].description == "Warning issued to " + "Amit Patel"
      && |r.messages| == |s.messages| + 1 && r.messages[|s.messages|].kind == SystemMessage
      && r.messages[|s.messages|].content == "\U{26A0}\U{FE0F} Guild Agent ne " + "Amit Patel" + " ko warning di hai."
  {
    assert forall j :: 0 <= j < 2 ==> s.members[j].id != s.members[2].id;
    WarnNamesMember(s, 2, later);
    var name := s.members[2].name;
    assert name == "Amit Patel" && s.members[2].id == "3";
    var r := WarnStep(s, "3", later);
    assert r.actions[0].description == "Warning issued to " + name;
    assert r.messages[|s.messages|].content == "\U{26A0}\U{FE0F} Guild Agent ne " + name + " ko warning di hai.";
  }

  /** handleWarnMember itself does not look at the role: warning the admin "Rahul Kumar"
      (id "1") gives him a warning. Only the view keeps the button from admins. */
  lemma SeedWarnAdminIsNotRefused(s: State, later: nat)
    requires s.members == SeedMembers
    ensures var r := WarnStep(s, "1", later);
      r.members[0].role == Admin && r.members[0].warnings == 1
      && r.actions[0].description == "Warning issued to " + "Rahul Kumar"
  {
    WarnNamesMember(s, 0, later);
    var name := s.members[0].name;
    assert name == "Rahul Kumar" && s.members[0].id == "1";
    var r := WarnStep(s, "1", later);
  }

  /** An id no member has leaves the members alone, yet still logs an action and posts a
      message, both naming "undefined". */
  lemma SeedWarnUnknownId(s: State, later: nat)
    requires s.members == SeedMembers
    ensures var r := WarnStep(s, "9", later);
      r.members == s.members && |r.actions| == |s.actions| + 1 && |r.messages| == |s.messages| + 1
      && r.actions[0].description == "Warning issued to " + "undefined"
      && r.messages[|s.messages|].content == "\U{26A0}\U{FE0F} Guild Agent ne " + "undefined" + " ko warning di hai."
  {
    assert forall i :: 0 <= i < |s.members| ==> s.members[i].id != "9";
    WarnUnknownNamesUndefined(s, "9", later);
  }

  /** Typing "hello" on the seed, sending it and receiving the delayed reply leaves three
      messages: the welcome, "hello" from "You", and one of the canned replies. */
  lemma SeedSendThenReply(now: nat, sent: nat, replied: nat, pick: nat)
    requires pick < |CannedReplies|
    ensures var r := Run(Seed(now), [SetInput("hello"), Send(sent), Reply(pick, replied)]);
      |r.messages| == 3 && r.input == ""
      && r.messages[1].sender == "You" && r.messages[1].kind == UserMessage && r.messages[1].content == "hello"
      && r.messages[2].kind == AgentMessage && r.messages[2].content in CannedReplies
  {
    assert !IsBlank("hello") by { assert !IsTrimmable("hello"[0]); }
    TypeSendReply(Seed(now), "hello", sent, pick, replied);
  }

  /** Sending a line of spaces and a tab changes nothing: the message list stays as it
      was and the input is not cleared. */
  lemma SendBlankIsIgnored(s: State, sent: nat)
    requires s.input == "  \t"
    ensures SendStep(s, sent) == s
  {
    assert IsBlank(s.input);
  }
}
