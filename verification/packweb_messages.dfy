/** The messages of the validator's errors: each message determines its
    error, and each contains the phrase the test suite looks for. */
module PackWebMessages {
  import opened Wrappers
  import opened PackWeb
  import opened Strings
  import JsonText

  /** The rest of a mismatch message after its fixed lead: two group lists
      separated by the fixed middle text. */
  function ReadMismatch(s: string): Option<ConfigError> {
    match JsonText.ReadList(s)
    case None => None
    case Some((p, rest)) =>
      if !StartsWith(rest, MismatchMiddle) then None
      else
        match JsonText.ReadList(rest[|MismatchMiddle|..])
        case None => None
        case Some((o, tail)) => if tail == [] then Some(GroupMismatch(p, o)) else None
  }

  /** The group name inside a bad-group message for key `k`, if `m` is one. */
  function ReadBadGroup(k: Key, m: string): Option<ConfigError> {
    var head := BadGroupHead(k);
    if StartsWith(m, head) && EndsWith(m[|head|..], BadGroupTail)
    then Some(BadGroup(k, m[|head|..|m| - |BadGroupTail|]))
    else None
  }

  /** Recovers an error from its message. */
  function ReadMessage(m: string): Option<ConfigError> {
    if m == FixedText(NoConfig) then Some(NoConfig)
    else if m == FixedText(NotAnObject) then Some(NotAnObject)
    else if m == FixedText(MissingKey(Packages)) then Some(MissingKey(Packages))
    else if m == FixedText(MissingKey(Owners)) then Some(MissingKey(Owners))
    else if m == FixedText(WrongShape(Packages)) then Some(WrongShape(Packages))
    else if m == FixedText(WrongShape(Owners)) then Some(WrongShape(Owners))
    else if ReadBadGroup(Packages, m).Some? then ReadBadGroup(Packages, m)
    else if ReadBadGroup(Owners, m).Some? then ReadBadGroup(Owners, m)
    else if StartsWith(m, MismatchLead) then ReadMismatch(m[|MismatchLead|..])
    else None
  }

  lemma ReadBadGroupMessage(k: Key, g: string)
    ensures ReadBadGroup(k, Message(BadGroup(k, g))) == Some(BadGroup(k, g))
    ensures ReadBadGroup(if k == Packages then Owners else Packages, Message(BadGroup(k, g))).None?
  {
    var m := Message(BadGroup(k, g));
    assert m == BadGroupHead(k) + g + BadGroupTail;
    ThreeParts(BadGroupHead(k), g, BadGroupTail);
    var other := if k == Packages then Owners else Packages;
    assert m[1] == k.Name()[0];
    assert BadGroupHead(other)[1] == other.Name()[0];
  }

  lemma MismatchMessageParts(p: seq<string>, o: seq<string>)
    ensures Message(GroupMismatch(p, o)) ==
      MismatchLead + (JsonText.Stringify(p) + (MismatchMiddle + JsonText.Stringify(o)))
  {
    var a, b, c, d := MismatchLead, JsonText.Stringify(p), MismatchMiddle, JsonText.Stringify(o);
    Assoc(a + b, c, d);
    Assoc(a, b, c + d);
  }

  lemma ReadMismatchMessage(p: seq<string>, o: seq<string>)
    ensures var m := Message(GroupMismatch(p, o));
            StartsWith(m, MismatchLead) && ReadMismatch(m[|MismatchLead|..]) == Some(GroupMismatch(p, o))
  {
    var so := JsonText.Stringify(o);
    var tail := MismatchMiddle + so;
    var rest := JsonText.Stringify(p) + tail;
    MismatchMessageParts(p, o);
    PrefixOfConcat(MismatchLead, rest);
    JsonText.StringifyRoundTrip(p, tail);
    PrefixOfConcat(MismatchMiddle, so);
    assert so + "" == so;
    JsonText.StringifyRoundTrip(o, "");
  }

  /** The six messages without a parameter start with a letter and have six
      different lengths, all shorter than the lead of a mismatch message. */
  lemma FixedMessageLengths()
    ensures |FixedText(NoConfig)| == 30 && FixedText(NoConfig)[0] == 'P'
    ensures |FixedText(NotAnObject)| == 36 && FixedText(NotAnObject)[0] == 'P'
    ensures |FixedText(MissingKey(Packages))| == 43 && FixedText(MissingKey(Packages))[0] == 'P'
    ensures |FixedText(MissingKey(Owners))| == 41 && FixedText(MissingKey(Owners))[0] == 'P'
    ensures |FixedText(WrongShape(Packages))| == 58 && FixedText(WrongShape(Packages))[0] == 'p'
    ensures |FixedText(WrongShape(Owners))| == 56 && FixedText(WrongShape(Owners))[0] == 'o'
    ensures |MismatchLead| == 66
  {
  }

  lemma FixedMessages(e: ConfigError)
    requires !e.BadGroup? && !e.GroupMismatch?
    ensures FixedText(e) != [] && FixedText(e)[0] != '\''
    ensures |FixedText(e)| < |MismatchLead|
    ensures ReadMessage(FixedText(e)) == Some(e)
  {
    FixedMessageLengths();
    assert BadGroupHead(Packages)[0] == '\'' && BadGroupHead(Owners)[0] == '\'';
  }

  lemma BadGroupRoundTrip(k: Key, g: string)
    ensures ReadMessage(Message(BadGroup(k, g))) == Some(BadGroup(k, g))
  {
    var m := Message(BadGroup(k, g));
    ReadBadGroupMessage(k, g);
    assert m[0] == '\'';
    FixedMessageLengths();
  }

  /** A mismatch message ends with the `]` of its second list, so it is
      not a bad-group message. */
  lemma MismatchIsNoBadGroup(p: seq<string>, o: seq<string>, k: Key)
    ensures ReadBadGroup(k, Message(GroupMismatch(p, o))).None?
  {
    var m := Message(GroupMismatch(p, o));
    var so := JsonText.Stringify(o);
    assert m == (MismatchLead + JsonText.Stringify(p) + MismatchMiddle) + so;
    assert so[|so| - 1] == ']';
    assert m[|m| - 1] == ']';
    assert BadGroupTail[17] == 'y';
  }

  lemma MismatchRoundTrip(p: seq<string>, o: seq<string>)
    ensures ReadMessage(Message(GroupMismatch(p, o))) == Some(GroupMismatch(p, o))
  {
    var m := Message(GroupMismatch(p, o));
    ReadMismatchMessage(p, o);
    MismatchIsNoBadGroup(p, o, Packages);
    MismatchIsNoBadGroup(p, o, Owners);
    assert |m| >= |MismatchLead| == 66;
    FixedMessageLengths();
  }

  /** Every message reads back as the error that produced it. */
  lemma MessageRoundTrip(e: ConfigError)
    ensures ReadMessage(Message(e)) == Some(e)
  {
    match e
    case BadGroup(k, g) => BadGroupRoundTrip(k, g);
    case GroupMismatch(p, o) => MismatchRoundTrip(p, o);
    case _ => FixedMessages(e);
  }

  /** Distinct errors have distinct messages. */
  lemma MessageInjective(e1: ConfigError, e2: ConfigError)
    ensures Message(e1) == Message(e2) ==> e1 == e2
  {
    MessageRoundTrip(e1);
    MessageRoundTrip(e2);
  }

  /** The messages of the top-level errors contain the phrases the test
      suite expects: `pass in a config object`, `needs to be an`. */
  lemma TopLevelMessagesMatchTests()
    ensures Contains(Message(NoConfig), "pass in a config object")
    ensures Contains(Message(NotAnObject), "needs to be an")
  {
    TopLevelLiterals();
    ContainsAtEnd("Please ", "pass in a config object");
    ContainsInMiddle("PackWeb config ", "needs to be an", " object");
  }

  lemma TopLevelLiterals()
    ensures FixedText(NoConfig) == "Please " + "pass in a config object"
    ensures FixedText(NotAnObject) == "PackWeb config " + "needs to be an" + " object"
  {
  }

  lemma LeadLiteral()
    ensures MismatchLead == "Packages and owners must have the same groups" + ". Your packages were "
  {
  }

  lemma KeyLiterals()
    ensures MissingKeyHead == "PackWeb config " + "needs to have" + " '"
    ensures WrongShapeLead == " " + "needs to be an array of strings" + " or hash "
  {
  }

  /** A missing key's message contains `needs to have`, a misshapen key's
      contains `needs to be an array of strings`. */
  lemma KeyMessagesMatchTests(k: Key)
    ensures Contains(Message(MissingKey(k)), "needs to have")
    ensures Contains(Message(WrongShape(k)), "needs to be an array of strings")
  {
    var n := k.Name();
    KeyLiterals();
    ContainsInMiddle("PackWeb config ", "needs to have", " '");
    ContainsExtended(MissingKeyHead, n, "needs to have");
    ContainsExtended(MissingKeyHead + n, "' key", "needs to have");
    ContainsInMiddle(" ", "needs to be an array of strings", " or hash ");
    ContainsPrepended(n, WrongShapeLead, "needs to be an array of strings");
    ContainsExtended(n + WrongShapeLead, "of groups", "needs to be an array of strings");
  }

  lemma BadGroupLiterals()
    ensures "' group '" == "'" + " " + "group" + " '"
    ensures BadGroupTail == "' " + "must be an array"
  {
  }

  /** A bad group's message matches the test suite's expression
      `/'<key>'.+group.+must be an array/` whenever the group name holds no
      line terminator: the quoted key, then `group`, then the verdict, with
      the group name inside the second gap. */
  lemma BadGroupMessageMatchesTests(k: Key, g: string)
    ensures OneLine(g) ==>
      MatchesGapped(Message(BadGroup(k, g)), "'" + k.Name() + "'", "group", "must be an array")
  {
    var y := " '" + g + "' ";
    BadGroupMessageParts(k, g);
    if OneLine(g) {
      assert OneLine(y) by {
        forall i | 0 <= i < |y| ensures !LineTerminator(y[i]) {
          if 2 <= i < 2 + |g| { assert y[i] == g[i - 2]; }
        }
      }
      assert OneLine(" ") by { assert " "[0] == ' '; }
      GappedMatch("'" + k.Name() + "'", " ", "group", y, "must be an array");
    }
  }

  /** A bad group's message cut at the quoted key, `group` and the verdict. */
  lemma BadGroupMessageParts(k: Key, g: string)
    ensures Message(BadGroup(k, g)) ==
      ("'" + k.Name() + "'") + " " + "group" + (" '" + g + "' ") + "must be an array"
  {
    var n := k.Name();
    BadGroupLiterals();
    calc {
      Message(BadGroup(k, g));
      ("'" + n + ("'" + " " + "group" + " '")) + g + ("' " + "must be an array");
      { Assoc("'" + n, "'" + " " + "group", " '");
        Assoc("'" + n, "'" + " ", "group");
        Assoc("'" + n, "'", " "); }
      ("'" + n + "'" + " " + "group" + " '") + g + ("' " + "must be an array");
      { Assoc("'" + n + "'" + " " + "group" + " '" + g, "' ", "must be an array");
        Assoc("'" + n + "'" + " " + "group", " '" + g, "' ");
        Assoc("'" + n + "'" + " " + "group", " '", g); }
      ("'" + n + "'") + " " + "group" + (" '" + g + "' ") + "must be an array";
    }
  }

  /** A mismatch message starts with the sentence the test suite expects. */
  lemma MismatchMessageMatchesTests(p: seq<string>, o: seq<string>)
    ensures StartsWith(Message(GroupMismatch(p, o)), "Packages and owners must have the same groups")
  {
    var lead := "Packages and owners must have the same groups";
    var rest := JsonText.Stringify(p) + (MismatchMiddle + JsonText.Stringify(o));
    LeadLiteral();
    PrefixOfConcat(lead, ". Your packages were ");
    StartsWithExtended(MismatchLead, rest, lead);
    MismatchMessageParts(p, o);
  }
}
