/** The contact page: the message form's rules and its two flags. */
module Contact {
  import opened Entities
  import opened Text

  datatype ContactDraft = ContactDraft(name: string, email: string, message: string)

  const EmptyContactDraft := ContactDraft("", "", "")

  /** `name`: required, at least 2 characters. */
  predicate ValidName(name: string) { |name| >= 2 }

  /** `email`: required and of the e-mail shape (an empty string does not have it). */
  predicate ValidEmail(email: string) { EmailShape(email) }

  /** `message`: required, at least 10 characters. */
  predicate ValidMessage(message: string) { |message| >= 10 }

  predicate ValidContact(d: ContactDraft)
  {
    ValidName(d.name) && ValidEmail(d.email) && ValidMessage(d.message)
  }

  /** Unlike the booking form, the contact form requires the e-mail. */
  lemma EmailRequired()
    ensures !ValidEmail("")
    ensures ValidContact(ContactDraft("Ana", "ana@clinic.in", "Need a visit"))
  {
    assert EmailPartsAt("ana@clinic.in", 3, 10);
  }

  datatype SubmitResult = Invalid | InsertFailed | Sent

  /** The page with the `contact_messages` table it writes to. */
  class ContactPage {
    var messages: seq<ContactMessage>
    var draft: ContactDraft
    var loading: bool
    var formSubmitted: bool

    constructor (messages0: seq<ContactMessage>)
      ensures messages == messages0 && draft == EmptyContactDraft && !loading && !formSubmitted
    {
      messages, draft := messages0, EmptyContactDraft;
      loading, formSubmitted := false, false;
    }

    method Edit(d: ContactDraft)
      modifies this`draft
      ensures draft == d
    {
      draft := d;
    }

    /** `handleSubmit(onSubmit)`: the form is on screen only while `formSubmitted` is false and its
        button is disabled while loading. A new row is unread (the column's default). */
    method Submit(newId: Id, insertFails: bool) returns (result: SubmitResult)
      requires !formSubmitted && !loading
      modifies this
      ensures !loading
      ensures result == Invalid <==> !ValidContact(old(draft))
      ensures result == Sent <==> ValidContact(old(draft)) && !insertFails
      ensures result == Sent ==>
        messages == old(messages) + [ContactMessage(newId, old(draft).name, old(draft).email, old(draft).message, false)] &&
        formSubmitted && draft == EmptyContactDraft
      ensures result != Sent ==> messages == old(messages) && !formSubmitted && draft == old(draft)
    {
      if !ValidContact(draft) {
        return Invalid;
      }
      loading := true;
      if insertFails {
        loading := false;
        return InsertFailed;
      }
      messages := messages + [ContactMessage(newId, draft.name, draft.email, draft.message, false)];
      formSubmitted := true;
      draft := EmptyContactDraft;
      loading := false;
      return Sent;
    }

    /** "Send Another Message" shows the form again. */
    method SendAnother()
      modifies this`formSubmitted
      ensures !formSubmitted
    {
      formSubmitted := false;
    }
  }
}
