/**
 * The conflict dialog of the UI manager: the candidate record shown to the
 * user, the radio-button selection `result`, the custom-input box, and the
 * close handler that resolves the pending question or shows the dialog again.
 *
 * The pure functions below describe one dialog step each; the class
 * `ConflictDialog` holds the module-level state and is proved against them.
 */
module ConflictDialogs {
  import opened Records
  import opened ConflictPolicies

  /** The properties the user cannot edit: stripped from the candidate. */
  const StrippedKeys: set<string> := {IdKey, DeletedKey, VersionKey}

  /** `setConflictResolutionCandidate`'s value: a copy of the record with
      `id`, `deleted` and `version` deleted. */
  function Candidate(record: Record): (c: Record)
    ensures IdKey !in c && DeletedKey !in c && VersionKey !in c
    ensures AgreeExcept(c, record, StrippedKeys)
    ensures c.Keys == record.Keys - StrippedKeys
  {
    map k | k in record && k !in StrippedKeys :: record[k]
  }

  /** The module-level `result`: a selected answer, or `undefined` (Unset)
      once the custom option was clicked. */
  datatype Choice = Unset | Picked(answer: Answer)

  /** The test of the close handler: `result` is 'server', 'client' or 'skip'. */
  predicate IsNamedChoice(c: Choice)
  {
    c.Picked? && c.answer.IsNamed()
  }

  /** The default radio-button selection. */
  const InitialChoice: Choice := Picked(UseServer)

  /** The selection and the text of the custom-input box. */
  datatype DialogState = DialogState(result: Choice, input: string)

  /** What the user does between opening and closing the dialog. */
  datatype UserEvent = ChooseServer | ChooseClient | ChooseSkip | ChooseCustom | Type(text: string)

  /** `resolve(clientRecord)` fills the custom-input box with the serialised
      candidate; the selection is left as it was. */
  function Shown(s: DialogState, record: Record, stringify: Record -> string): (t: DialogState)
    ensures t.result == s.result
    ensures t.input == stringify(Candidate(record))
  {
    s.(input := stringify(Candidate(record)))
  }

  /** One click handler, or the user typing into the custom-input box. */
  function React(s: DialogState, ev: UserEvent): (t: DialogState)
    ensures ev == ChooseServer ==> t.result == Picked(UseServer) && t.input == ""
    ensures ev == ChooseClient ==> t.result == Picked(UseClient) && t.input == ""
    ensures ev == ChooseSkip ==> t.result == Picked(SkipConflict) && t.input == ""
    ensures ev == ChooseCustom ==> t.result == Unset && t.input == s.input
    ensures ev.Type? ==> t.result == s.result && t.input == ev.text
  {
    match ev
    case ChooseServer => DialogState(Picked(UseServer), "")
    case ChooseClient => DialogState(Picked(UseClient), "")
    case ChooseSkip => DialogState(Picked(SkipConflict), "")
    case ChooseCustom => s.(result := Unset)
    case Type(text) => s.(input := text)
  }

  /** The events in order; the last one has the last word. */
  function ReactAll(s: DialogState, evs: seq<UserEvent>): (t: DialogState)
    decreases |evs|
    ensures evs != [] ==> t == React(ReactAll(s, evs[..|evs| - 1]), evs[|evs| - 1])
  {
    if evs == [] then s
    else
      var init := evs[..|evs| - 1];
      assert |evs| > 1 ==> init != [] && init[0] == evs[0] && init[1..] == evs[1..][..|evs| - 2];
      assert |evs| == 1 ==> init == [] && evs[1..] == [];
      ReactAll(React(s, evs[0]), evs[1..])
  }

  /** The state after closing the dialog, and the answer it resolved with
      (None: the input was invalid and the dialog is shown again). */
  datatype Closed = Closed(state: DialogState, answer: Option<Answer>)

  /** The close handler: a named selection resolves as it is; otherwise the
      custom input is parsed and, if it parses, becomes the selection and the
      answer. A parse failure changes nothing. */
  function OnClose(s: DialogState, parse: string -> Option<Record>): (c: Closed)
    ensures IsNamedChoice(s.result) ==> c == Closed(s, Some(s.result.answer))
    ensures !IsNamedChoice(s.result) ==> (c.answer.Some? <==> parse(s.input).Some?)
    ensures !IsNamedChoice(s.result) && parse(s.input).Some? ==>
              c.answer == Some(UseCustom(parse(s.input).value)) && c.state.input == s.input
    ensures c.answer.None? ==> c.state == s
    ensures c.answer.Some? ==> c.state.result == Picked(c.answer.value)
  {
    if IsNamedChoice(s.result) then
      Closed(s, Some(s.result.answer))
    else
      match parse(s.input)
      case None => Closed(s, None)
      case Some(r) => Closed(s.(result := Picked(UseCustom(r))), Some(UseCustom(r)))
  }

  /** The user goes through the attempts in order; each ends with a close.
      The first attempt whose close resolves ends the dialog. */
  function Converse(s: DialogState, attempts: seq<seq<UserEvent>>, parse: string -> Option<Record>): (c: Closed)
    decreases |attempts|
    ensures c.answer.Some? ==> c.state.result == Picked(c.answer.value)
    ensures c.answer.Some? ==> attempts != []
  {
    if attempts == [] then Closed(s, None)
    else
      var closed := OnClose(ReactAll(s, attempts[0]), parse);
      if closed.answer.Some? then closed else Converse(closed.state, attempts[1..], parse)
  }

  lemma {:induction false} ReactAllAppend(s: DialogState, a: seq<UserEvent>, b: seq<UserEvent>)
    decreases |a|
    ensures ReactAll(s, a + b) == ReactAll(ReactAll(s, a), b)
  {
    if a != [] {
      assert (a + b)[0] == a[0];
      assert (a + b)[1..] == a[1..] + b;
      ReactAllAppend(React(s, a[0]), a[1..], b);
    } else {
      assert a + b == b;
    }
  }

  /** Typing into the box never changes the selection. */
  lemma {:induction false} TypingKeepsChoice(s: DialogState, evs: seq<UserEvent>)
    requires forall i :: 0 <= i < |evs| ==> evs[i].Type?
    decreases |evs|
    ensures ReactAll(s, evs).result == s.result
  {
    if evs != [] {
      TypingKeepsChoice(React(s, evs[0]), evs[1..]);
    }
  }

  /** The answer a click on server, client or skip selects. */
  function ClickedAnswer(choice: UserEvent): (a: Answer)
    requires choice == ChooseServer || choice == ChooseClient || choice == ChooseSkip
    ensures a.IsNamed()
    ensures forall s :: React(s, choice).result == Picked(a)
  {
    match choice
    case ChooseServer => UseServer
    case ChooseClient => UseClient
    case _ => SkipConflict
  }

  /** The answer of an attempt whose last radio click is server, client or
      skip is that choice, whatever was typed before or after it. */
  lemma LastNamedChoiceWins(s: DialogState, before: seq<UserEvent>, choice: UserEvent, after: seq<UserEvent>,
                            parse: string -> Option<Record>)
    requires choice == ChooseServer || choice == ChooseClient || choice == ChooseSkip
    requires forall i :: 0 <= i < |after| ==> after[i].Type?
    ensures OnClose(ReactAll(s, before + [choice] + after), parse).answer == Some(ClickedAnswer(choice))
  {
    ReactAllAppend(s, before + [choice], after);
    ReactAllAppend(s, before, [choice]);
    TypingKeepsChoice(ReactAll(s, before + [choice]), after);
  }

  /** Events that leave the selection unnamed and the box unparsable. */
  predicate InvalidEvent(ev: UserEvent, parse: string -> Option<Record>)
  {
    ev == ChooseCustom || (ev.Type? && parse(ev.text).None?)
  }

  lemma {:induction false} InvalidEventsKeepInvalid(s: DialogState, evs: seq<UserEvent>, parse: string -> Option<Record>)
    requires !IsNamedChoice(s.result) && parse(s.input).None?
    requires forall i :: 0 <= i < |evs| ==> InvalidEvent(evs[i], parse)
    decreases |evs|
    ensures var t := ReactAll(s, evs); !IsNamedChoice(t.result) && parse(t.input).None?
  {
    if evs != [] {
      assert InvalidEvent(evs[0], parse);
      InvalidEventsKeepInvalid(React(s, evs[0]), evs[1..], parse);
    }
  }

  /** From a state whose selection is already unset and whose box already
      fails to parse, attempts made only of custom clicks and unparsable
      typing never resolve the question: the dialog is shown again each time
      rather than falling back to skip. */
  lemma {:induction false} InvalidInputIsAskedAgain(s: DialogState, attempts: seq<seq<UserEvent>>,
                                                    parse: string -> Option<Record>)
    requires !IsNamedChoice(s.result) && parse(s.input).None?
    requires forall i, j :: 0 <= i < |attempts| && 0 <= j < |attempts[i]| ==> InvalidEvent(attempts[i][j], parse)
    decreases |attempts|
    ensures Converse(s, attempts, parse).answer == None
  {
    if attempts != [] {
      InvalidEventsKeepInvalid(s, attempts[0], parse);
      var after := ReactAll(s, attempts[0]);
      assert OnClose(after, parse) == Closed(after, None);
      forall i, j | 0 <= i < |attempts[1..]| && 0 <= j < |attempts[1..][i]|
        ensures InvalidEvent(attempts[1..][i][j], parse)
      {
        assert attempts[1..][i] == attempts[i + 1];
      }
      InvalidInputIsAskedAgain(after, attempts[1..], parse);
    }
  }

  /** Running the attempts of `a` and then those of `b` is running `a` and,
      if no close in `a` resolved, going on with `b` from where `a` left the
      dialog. */
  lemma {:induction false} ConverseAppend(s: DialogState, a: seq<seq<UserEvent>>, b: seq<seq<UserEvent>>,
                                          parse: string -> Option<Record>)
    decreases |a|
    ensures var c := Converse(s, a, parse);
            Converse(s, a + b, parse) == if c.answer.Some? then c else Converse(c.state, b, parse)
  {
    if a == [] {
      assert a + b == b;
    } else {
      assert (a + b)[0] == a[0];
      assert (a + b)[1..] == a[1..] + b;
      var closed := OnClose(ReactAll(s, a[0]), parse);
      if closed.answer.None? {
        ConverseAppend(closed.state, a[1..], b, parse);
      }
    }
  }

  /** Whatever came before, an attempt that ends with a custom click followed
      by typing leaves the selection unset and the last text in the box. */
  lemma {:induction false} CustomThenTyping(s: DialogState, before: seq<UserEvent>, typed: seq<UserEvent>)
    requires typed != [] && forall i :: 0 <= i < |typed| ==> typed[i].Type?
    ensures ReactAll(s, before + [ChooseCustom] + typed) == DialogState(Unset, typed[|typed| - 1].text)
  {
    var m := ReactAll(s, before + [ChooseCustom]);
    ReactAllAppend(s, before + [ChooseCustom], typed);
    var init := typed[..|typed| - 1];
    assert forall i :: 0 <= i < |init| ==> init[i] == typed[i];
    TypingKeepsChoice(m, init);
  }

  /** An attempt that ends with a custom click followed by typing whose last
      text does not parse. */
  predicate EndsInvalid(a: seq<UserEvent>, parse: string -> Option<Record>)
  {
    && |a| >= 2 && a[|a| - 1].Type? && parse(a[|a| - 1].text).None?
    && exists k :: 0 <= k < |a| - 1 && a[k] == ChooseCustom && forall j :: k < j < |a| ==> a[j].Type?
  }

  /** Closing after an attempt that ends with unparsable custom input
      resolves nothing and leaves the state as the attempt made it. */
  lemma EndsInvalidFails(s: DialogState, a: seq<UserEvent>, parse: string -> Option<Record>)
    requires EndsInvalid(a, parse)
    ensures OnClose(ReactAll(s, a), parse) == Closed(ReactAll(s, a), None)
  {
    var k :| 0 <= k < |a| - 1 && a[k] == ChooseCustom && forall j :: k < j < |a| ==> a[j].Type?;
    var typed := a[k + 1..];
    forall i | 0 <= i < |typed|
      ensures typed[i].Type?
    {
      assert typed[i] == a[k + 1 + i];
    }
    assert a == a[..k] + [ChooseCustom] + typed;
    assert typed[|typed| - 1] == a[|a| - 1];
    CustomThenTyping(s, a[..k], typed);
  }

  /** From any state, in particular the one the dialog opens in, however many
      attempts end with unparsable custom input, whatever each did before, no
      close resolves and the dialog is shown again each time. */
  lemma {:induction false} FailedClosesAreAskedAgain(s: DialogState, attempts: seq<seq<UserEvent>>,
                                                     parse: string -> Option<Record>)
    requires forall i :: 0 <= i < |attempts| ==> EndsInvalid(attempts[i], parse)
    decreases |attempts|
    ensures Converse(s, attempts, parse).answer == None
  {
    if attempts != [] {
      EndsInvalidFails(s, attempts[0], parse);
      var rest := attempts[1..];
      assert forall i :: 0 <= i < |rest| ==> rest[i] == attempts[i + 1];
      FailedClosesAreAskedAgain(ReactAll(s, attempts[0]), rest, parse);
    }
  }

  /** From any state, once a run of attempts has left the question open,
      the next attempt that ends on a click of server, client or skip
      (followed only by typing) is answered with exactly that choice,
      whatever attempts would follow. */
  lemma AnsweredAfterInvalid(s: DialogState, bad: seq<seq<UserEvent>>, before: seq<UserEvent>,
                             choice: UserEvent, after: seq<UserEvent>, rest: seq<seq<UserEvent>>,
                             parse: string -> Option<Record>)
    requires Converse(s, bad, parse).answer.None?
    requires choice == ChooseServer || choice == ChooseClient || choice == ChooseSkip
    requires forall i :: 0 <= i < |after| ==> after[i].Type?
    ensures Converse(s, bad + [before + [choice] + after] + rest, parse).answer == Some(ClickedAnswer(choice))
  {
    var good := before + [choice] + after;
    assert bad + [good] + rest == bad + ([good] + rest);
    ConverseAppend(s, bad, [good] + rest, parse);
    var t := Converse(s, bad, parse).state;
    assert ([good] + rest)[0] == good;
    LastNamedChoiceWins(t, before, choice, after, parse);
  }

  /** Choosing custom and closing without editing the box resolves with the
      candidate itself, when the serialisation parses back to it. */
  lemma UntouchedCandidateResolvesItself(s: DialogState, record: Record, stringify: Record -> string,
                                         parse: string -> Option<Record>)
    requires parse(stringify(Candidate(record))) == Some(Candidate(record))
    ensures Converse(Shown(s, record, stringify), [[ChooseCustom]], parse).answer == Some(UseCustom(Candidate(record)))
  {
  }

  /** A fresh dialog closed untouched resolves with the default, 'server'. */
  lemma DefaultAnswerIsServer(input: string, record: Record, stringify: Record -> string,
                              parse: string -> Option<Record>)
    ensures Converse(Shown(DialogState(InitialChoice, input), record, stringify), [[]], parse).answer == Some(UseServer)
  {
  }

  /** After a custom answer, `result` holds the parsed record rather than a
      named choice, so the next dialog closed untouched parses the new
      candidate instead of answering 'server'. */
  lemma CustomSelectionCarriesOver(s: DialogState, record: Record, stringify: Record -> string,
                                   parse: string -> Option<Record>)
    requires s.result.Picked? && s.result.answer.UseCustom?
    requires parse(stringify(Candidate(record))) == Some(Candidate(record))
    ensures Converse(Shown(s, record, stringify), [[]], parse).answer == Some(UseCustom(Candidate(record)))
  {
  }

  /**
   * The UI manager's dialog state: the selection `result` and the custom
   * input box, with the JSON codec the page uses.
   */
  class ConflictDialog {
    var result: Choice
    var customInput: string
    const parse: string -> Option<Record>
    const stringify: Record -> string

    function State(): DialogState
      reads this
    {
      DialogState(result, customInput)
    }

    constructor (parse: string -> Option<Record>, stringify: Record -> string, initialInput: string)
      ensures State() == DialogState(InitialChoice, initialInput)
      ensures this.parse == parse && this.stringify == stringify
    {
      result := InitialChoice;
      customInput := initialInput;
      this.parse := parse;
      this.stringify := stringify;
    }

    method SetConflictResolutionCandidate(record: Record)
      modifies this
      ensures result == old(result)
      ensures customInput == stringify(Candidate(record))
    {
      var value := record - StrippedKeys;
      assert value == Candidate(record);
      customInput := stringify(value);
    }

    method ClickServer()
      modifies this
      ensures result == Picked(UseServer) && customInput == ""
    {
      result := Picked(UseServer);
      customInput := "";
    }

    method ClickClient()
      modifies this
      ensures result == Picked(UseClient) && customInput == ""
    {
      result := Picked(UseClient);
      customInput := "";
    }

    method ClickSkip()
      modifies this
      ensures result == Picked(SkipConflict) && customInput == ""
    {
      result := Picked(SkipConflict);
      customInput := "";
    }

    method ClickCustom()
      modifies this
      ensures result == Unset && customInput == old(customInput)
    {
      result := Unset;
    }

    method TypeInput(text: string)
      modifies this
      ensures result == old(result) && customInput == text
    {
      customInput := text;
    }

    /** Routes one user event to its handler. */
    method HandleEvent(ev: UserEvent)
      modifies this
      ensures State() == React(old(State()), ev)
    {
      match ev
      case ChooseServer => ClickServer();
      case ChooseClient => ClickClient();
      case ChooseSkip => ClickSkip();
      case ChooseCustom => ClickCustom();
      case Type(text) => TypeInput(text);
    }

    /** The dialog's close handler. */
    method Close() returns (answer: Option<Answer>)
      modifies this
      ensures Closed(State(), answer) == OnClose(old(State()), parse)
    {
      if result != Picked(UseServer) && result != Picked(UseClient) && result != Picked(SkipConflict) {
        var parsed := parse(customInput);
        if parsed.None? {
          return None;
        }
        result := Picked(UseCustom(parsed.value));
      }
      answer := Some(result.answer);
    }

    /** `resolve(clientRecord)`: show the candidate, then show the dialog
        until a close resolves or the user's attempts run out. */
    method Resolve(clientRecord: Record, attempts: seq<seq<UserEvent>>) returns (answer: Option<Answer>)
      modifies this
      ensures Closed(State(), answer) == Converse(Shown(old(State()), clientRecord, stringify), attempts, parse)
    {
      SetConflictResolutionCandidate(clientRecord);
      ghost var goal := Converse(State(), attempts, parse);
      answer := None;
      var i := 0;
      while i < |attempts| && answer.None?
        invariant 0 <= i <= |attempts|
        invariant answer.None? ==> Converse(State(), attempts[i..], parse) == goal
        invariant answer.Some? ==> Closed(State(), answer) == goal
        decreases |attempts| - i
      {
        var events := attempts[i];
        ghost var before := State();
        var j := 0;
        while j < |events|
          invariant 0 <= j <= |events|
          invariant ReactAll(before, events) == ReactAll(State(), events[j..])
        {
          assert events[j..][1..] == events[j + 1..];
          HandleEvent(events[j]);
          j := j + 1;
        }
        assert attempts[i..][0] == events && attempts[i..][1..] == attempts[i + 1..];
        answer := Close();
        i := i + 1;
      }
      if answer.None? {
        assert attempts[i..] == [];
      }
    }
  }
}
