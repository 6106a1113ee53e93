/** `sendMessage` (controllers/messageController.js): the content checks,
    the listing lookup, the refusal to message oneself, and the message that
    is stored, addressed to the listing's seller. */
module MessageController {
  import opened Common
  import opened JsText
  import opened ListingSchema

  /** `req.body.content`: undefined, a string, or some other JSON value. */
  datatype Content = Undefined | Str(text: string) | NonString

  /** A stored message. */
  datatype Message = Message(sender: Id, recipient: Id, listing: Id, content: string)

  /** How `newMessage.save()` can fail: a ValidationError with the messages of
      its failed paths, or any other error. */
  datatype SaveFailure = ValidationError(messages: seq<string>) | OtherError(name: string)

  datatype MessageBody = Sent(message: string, data: Message)

  /** What the handler answers, and the message it stored, if any. */
  datatype SendResult = SendResult(response: Response<MessageBody>, saved: Option<Message>)

  const MaxContentLength: nat := 500
  const EmptyMessage: string := "Message content cannot be empty."
  const TooLongMessage: string := "Message content too long (max 500 characters)."
  const ListingNotFoundMessage: string := "Listing not found."
  const SelfMessage: string := "You cannot send a message to yourself about your own listing."
  const SentMessage: string := "Message sent successfully!"
  const ServerErrorMessage: string := "Server error while sending message."

  /** Content the first check lets through: a string that is not blank. */
  predicate NotBlank(c: Content) {
    c.Str? && Trim(c.text) != ""
  }

  /** Content both checks let through; the length is that of the untrimmed text. */
  predicate ContentAccepted(c: Content) {
    NotBlank(c) && Utf16Length(c.text) <= MaxContentLength
  }

  /** The catch block: a ValidationError is a 400 listing its messages,
      anything else a 500. */
  function CatchResponse(e: SaveFailure): (r: Response<MessageBody>)
    ensures r.Err?
    ensures r.status == 400 <==> e.ValidationError?
    ensures e.ValidationError? ==> r.message == "Validation error: " + Join(e.messages, ", ")
    ensures e.OtherError? ==> r == Err(500, ServerErrorMessage)
  {
    match e
    case ValidationError(messages) => Err(400, "Validation error: " + Join(messages, ", "))
    case OtherError(_) => Err(500, ServerErrorMessage)
  }

  /** The checks that come before building the message, in order: blank
      content, overlong content, unknown listing, the seller writing to
      themself. None when all pass. */
  function Guards(listingId: Id, content: Content, sender: Id, listings: map<Id, Listing>): (r: Option<Response<MessageBody>>)
    ensures r.None? <==> ContentAccepted(content) && listingId in listings && listings[listingId].seller != sender
    ensures !NotBlank(content) ==> r == Some(Err(400, EmptyMessage))
    ensures NotBlank(content) && !ContentAccepted(content) ==> r == Some(Err(400, TooLongMessage))
    ensures ContentAccepted(content) && listingId !in listings ==> r == Some(Err(404, ListingNotFoundMessage))
    ensures ContentAccepted(content) && listingId in listings && listings[listingId].seller == sender ==>
              r == Some(Err(400, SelfMessage))
  {
    if !NotBlank(content) then Some(Err(400, EmptyMessage))
    else if Utf16Length(content.text) > MaxContentLength then Some(Err(400, TooLongMessage))
    else if listingId !in listings then Some(Err(404, ListingNotFoundMessage))
    else if sender == listings[listingId].seller then Some(Err(400, SelfMessage))
    else None
  }

  /** `sendMessage`, as the handler evidently intends it: once the checks
      pass, a message from the sender to the listing's seller, with the
      trimmed content, is saved and returned with 201; a failed save goes to
      the catch block. `saveFailure` is the outcome of `save()`, which
      depends on a message schema that is not part of this model. */
  function SendMessage(listingId: Id, content: Content, sender: Id, listings: map<Id, Listing>,
                       saveFailure: Option<SaveFailure>): (r: SendResult)
    ensures Guards(listingId, content, sender, listings).Some? ==>
              r == SendResult(Guards(listingId, content, sender, listings).value, None)
    ensures r.saved.Some? <==> Guards(listingId, content, sender, listings).None? && saveFailure.None?
    ensures Guards(listingId, content, sender, listings).None? && saveFailure.Some? ==>
              r == SendResult(CatchResponse(saveFailure.value), None)
    ensures r.saved.Some? ==>
              && r.saved.value == Message(sender, listings[listingId].seller, listingId, Trim(content.text))
              && r.saved.value.recipient != sender
              && r.saved.value.content != ""
              && r.response == Ok(201, Sent(SentMessage, r.saved.value))
  {
    match Guards(listingId, content, sender, listings)
    case Some(refusal) => SendResult(refusal, None)
    case None =>
      var message := Message(sender, listings[listingId].seller, listingId, Trim(content.text));
      match saveFailure
      case Some(e) => SendResult(CatchResponse(e), None)
      case None => SendResult(Ok(201, Sent(SentMessage, message)), Some(message))
  }

  /** `sendMessage` as written: `Message` is bound to the module exported by
      models/Message.js, an object holding a `sendMessage` function rather
      than a model, so `new Message(...)` raises a TypeError and the catch
      block answers 500. */
  function SendMessageAsWritten(listingId: Id, content: Content, sender: Id, listings: map<Id, Listing>)
    : (r: SendResult)
    ensures Guards(listingId, content, sender, listings).Some? ==>
              r == SendResult(Guards(listingId, content, sender, listings).value, None)
    ensures Guards(listingId, content, sender, listings).None? ==>
              r == SendResult(CatchResponse(OtherError("TypeError")), None)
  {
    match Guards(listingId, content, sender, listings)
    case Some(refusal) => SendResult(refusal, None)
    case None => SendResult(CatchResponse(OtherError("TypeError")), None)
  }

  /** As written, no request ever stores a message, and one that passes
      every check is answered with a server error. */
  lemma AsWrittenNeverSends(listingId: Id, content: Content, sender: Id, listings: map<Id, Listing>)
    ensures SendMessageAsWritten(listingId, content, sender, listings).saved.None?
    ensures Guards(listingId, content, sender, listings).None? ==>
              SendMessageAsWritten(listingId, content, sender, listings).response == Err(500, ServerErrorMessage)
  {
  }

  /** A request that shows it: any non-blank text of at most 500
      characters sent by someone other than the seller, of which "Hi" from
      buyer 2 about listing 7 of seller 1 is one. The intended version
      stores it; the written one answers 500. */
  lemma AsWrittenRefusesValidMessage(listingId: Id, text: string, sender: Id, listings: map<Id, Listing>)
    requires listingId in listings && listings[listingId].seller != sender
    requires 0 < |text| <= MaxContentLength && !IsWhitespace(text[0])
    requires forall i :: 0 <= i < |text| ==> text[i] as int < 0x10000
    ensures SendMessageAsWritten(listingId, Str(text), sender, listings).response == Err(500, ServerErrorMessage)
    ensures SendMessage(listingId, Str(text), sender, listings, None).response.Ok?
  {
    assert TrimStart(text) == text;
    assert Trim(text) != [];
  }

  lemma AsWrittenRefusesHi(l: Listing)
    requires l.seller == 1
    ensures SendMessageAsWritten(7, Str("Hi"), 2, map[7 := l]).response == Err(500, ServerErrorMessage)
  {
    AsWrittenRefusesValidMessage(7, "Hi", 2, map[7 := l]);
  }

  /** The two versions differ only once every check has passed: the
      refusals are the same. */
  lemma VersionsAgreeOnRefusals(listingId: Id, content: Content, sender: Id, listings: map<Id, Listing>,
                                saveFailure: Option<SaveFailure>)
    requires !(ContentAccepted(content) && listingId in listings && listings[listingId].seller != sender)
    ensures SendMessage(listingId, content, sender, listings, saveFailure)
            == SendMessageAsWritten(listingId, content, sender, listings)
  {
  }

  /** Content checks come before the lookup: blank or overlong content is
      refused whatever the store holds. */
  lemma ContentCheckedBeforeLookup(listingId: Id, content: Content, sender: Id,
                                   a: map<Id, Listing>, b: map<Id, Listing>)
    requires !ContentAccepted(content)
    ensures Guards(listingId, content, sender, a) == Guards(listingId, content, sender, b)
    ensures Guards(listingId, content, sender, a).value.status == 400
  {
  }
}
