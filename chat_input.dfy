/** The message input box of the chat page: a text field capped at 5000
    characters, a send action guarded by three conditions, and the derived
    character count and limit flags.  `onSendMessage` is modelled by the log
    of the texts handed to it; the `disabled` prop is a field the parent
    sets. */
module ChatInput {
  import opened Wrappers
  import opened JsText
  import ChatRoute

  const MAX_MESSAGE_LENGTH := 5000
  const MAX_MESSAGE_LENGTH_WARNING := 4000

  /** A text `handleSend` may hand to `onSendMessage`: non-empty, within the
      limit, and neither starting nor ending with white space. */
  predicate Sendable(m: JsString) {
    m != [] && |m| <= MAX_MESSAGE_LENGTH && !IsWhiteSpace(m[0]) && !IsWhiteSpace(m[|m| - 1])
  }

  predicate AllSendable(ms: seq<JsString>) {
    forall i :: 0 <= i < |ms| ==> Sendable(ms[i])
  }

  /** The trimmed text that passes the guard of `handleSend` is sendable. */
  lemma {:induction false} TrimmedSendable(s: JsString)
    requires Trim(s) != [] && |Trim(s)| <= MAX_MESSAGE_LENGTH
    ensures Sendable(Trim(s))
  {
    TrimEdges(s);
  }

  lemma {:induction false} AppendSendable(ms: seq<JsString>, m: JsString)
    requires AllSendable(ms) && Sendable(m)
    ensures AllSendable(ms + [m])
  {
    forall i | 0 <= i < |ms + [m]| ensures Sendable((ms + [m])[i]) {
      if i < |ms| {
        assert (ms + [m])[i] == ms[i];
      }
    }
  }

  class InputBox {
    /** The `input` state. */
    var input: JsString
    /** The `disabled` prop. */
    var disabled: bool
    /** Every text passed to `onSendMessage`, oldest first. */
    var sent: seq<JsString>

    ghost predicate Valid()
      reads this
    {
      && |input| <= MAX_MESSAGE_LENGTH
      && AllSendable(sent)
    }

    constructor (disabled: bool)
      ensures Valid()
      ensures input == [] && sent == [] && this.disabled == disabled
    {
      input := [];
      sent := [];
      this.disabled := disabled;
    }

    /** `charCount`: the length of the trimmed input. */
    function CharCount(): (r: nat)
      reads this
      ensures r <= |input|
    {
      |Trim(input)|
    }

    /** `isOverLimit`. */
    predicate IsOverLimit()
      reads this
      ensures IsOverLimit() ==> IsNearLimit()
    {
      CharCount() > MAX_MESSAGE_LENGTH
    }

    /** `isNearLimit`. */
    predicate IsNearLimit()
      reads this
      ensures IsNearLimit() ==> |input| > MAX_MESSAGE_LENGTH_WARNING
    {
      CharCount() > MAX_MESSAGE_LENGTH_WARNING
    }

    /** The guard of `handleSend`. */
    predicate CanSend()
      reads this
      ensures CanSend() ==> !IsOverLimit()
    {
      Trim(input) != [] && !disabled && |Trim(input)| <= MAX_MESSAGE_LENGTH
    }

    /** The `disabled` attribute of the send button. */
    predicate SendButtonDisabled()
      reads this
      ensures SendButtonDisabled() <==> !CanSend()
    {
      disabled || Trim(input) == [] || IsOverLimit()
    }

    /** `handleInputChange`: an edit is taken only when the new value has at
        most 5000 code units; a longer value leaves the input as it was. */
    method HandleInputChange(value: JsString)
      requires Valid()
      modifies this`input
      ensures Valid()
      ensures |value| <= MAX_MESSAGE_LENGTH ==> input == value
      ensures |value| > MAX_MESSAGE_LENGTH ==> input == old(input)
    {
      if |value| <= MAX_MESSAGE_LENGTH {
        input := value;
      }
    }

    /** `handleSend`: when the guard holds, the trimmed input is handed to
        `onSendMessage` once and the input is cleared; otherwise nothing
        happens. */
    method HandleSend()
      requires Valid()
      modifies this`input, this`sent
      ensures Valid()
      ensures old(CanSend()) ==> sent == old(sent) + [Trim(old(input))] && input == []
      ensures !old(CanSend()) ==> sent == old(sent) && input == old(input)
    {
      var trimmed := Trim(input);
      if trimmed != [] && !disabled && |trimmed| <= MAX_MESSAGE_LENGTH {
        TrimmedSendable(input);
        AppendSendable(sent, trimmed);
        sent := sent + [trimmed];
        input := [];
      }
    }

    /** `handleKeyDown`: Enter without Shift suppresses the newline and sends;
        every other key is left to the text field. */
    method HandleKeyDown(key: JsString, shiftKey: bool) returns (preventDefault: bool)
      requires Valid()
      modifies this`input, this`sent
      ensures Valid()
      ensures preventDefault <==> key == Lit("Enter") && !shiftKey
      ensures preventDefault && old(CanSend()) ==> sent == old(sent) + [Trim(old(input))] && input == []
      ensures !(preventDefault && old(CanSend())) ==> sent == old(sent) && input == old(input)
    {
      preventDefault := key == Lit("Enter") && !shiftKey;
      if preventDefault {
        HandleSend();
      }
    }
  }

  /** The input never holds more than 5000 code units, so the trimmed text is
      never over the limit: the over-limit flag, its red styling and its
      warning cannot show in any reachable state. */
  lemma {:induction false} NeverOverLimit(box: InputBox)
    requires box.Valid()
    ensures !box.IsOverLimit()
    ensures box.CharCount() <= |box.input| <= MAX_MESSAGE_LENGTH
  {
  }

  /** Over the limit implies near it; so in a reachable state the
      "getting long" warning shows exactly when more than 4000 trimmed code
      units are typed. */
  lemma {:induction false} LimitFlags(box: InputBox)
    ensures box.IsOverLimit() ==> box.IsNearLimit()
    ensures box.Valid() ==> (box.IsNearLimit() && !box.IsOverLimit() <==> box.CharCount() > MAX_MESSAGE_LENGTH_WARNING)
  {
  }

  /** The send button is enabled exactly when clicking it sends. */
  lemma {:induction false} ButtonEnabledIffSendFires(box: InputBox)
    ensures !box.SendButtonDisabled() <==> box.CanSend()
  {
  }

  /** Every text the box has sent passes the server's message checks, and is
      forwarded as it is unless it is over 4000 characters. */
  lemma {:induction false} SentMessagesAccepted(box: InputBox)
    requires box.Valid()
    ensures forall i :: 0 <= i < |box.sent| ==>
      ChatRoute.ValidateMessage(ChatRoute.Str(box.sent[i])) == Ok(ChatRoute.Truncate(box.sent[i]))
  {
    forall i | 0 <= i < |box.sent|
      ensures ChatRoute.ValidateMessage(ChatRoute.Str(box.sent[i])) == Ok(ChatRoute.Truncate(box.sent[i]))
    {
      var m := box.sent[i];
      assert Sendable(m);
      TrimKeeps(m);
      ChatRoute.TrimmedInputAccepted(m);
    }
  }
}
