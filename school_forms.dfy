/** The school app's public forms: the contact form (with its phone check)
    and the notice form. A form turns the posted strings into a row or into
    the first validation error Django would report for them. */
module SchoolForms {
  import opened Common
  import opened Text
  import opened SchoolModels

  // Django's stock messages for the built-in field checks.
  const Required := "This field is required."
  const InvalidChoice := "Select a valid choice."
  const InvalidEmail := "Enter a valid email address."
  const TooLong := "Ensure this value has fewer characters."
  /** The message `clean_phone` raises. */
  const InvalidPhone := "Please enter a valid phone number."

  // ---------------------------------------------------------------- clean_phone

  /** The three characters `clean_phone` tolerates between digits. */
  predicate IsPhoneSeparator(c: char) {
    c == ' ' || c == '-' || c == '+'
  }

  /** The phone with every space, `-` and `+` removed, the other characters in order. */
  function StripSeparators(p: string): (r: string)
    ensures forall c :: c in r <==> c in p && !IsPhoneSeparator(c)
    ensures |r| <= |p|
  {
    RemoveChar(RemoveChar(RemoveChar(p, ' '), '-'), '+')
  }

  /** `ContactForm.clean_phone`: a missing or empty phone passes; any other
      phone passes when what is left after removing the separators is a
      non-empty run of digits. A phone that passes is returned as typed. */
  function CleanPhone(phone: Option<string>): (r: Outcome<Option<string>>)
    ensures r.Ok? ==> r.value == phone
    ensures r.Err? ==> r.error == InvalidPhone
    ensures phone.None? || phone.value == "" ==> r.Ok?
  {
    if phone.Some? && phone.value != "" && !IsDigitString(StripSeparators(phone.value))
    then Err(InvalidPhone)
    else Ok(phone)
  }

  /** A phone number as a reader would describe the accepted ones: digits and
      separators only, with at least one digit. */
  ghost predicate PhoneShaped(p: string) {
    && (forall c :: c in p ==> IsDigit(c) || IsPhoneSeparator(c))
    && (exists c :: c in p && IsDigit(c))
  }

  /** A non-empty phone is accepted exactly when it is phone-shaped. */
  lemma CleanPhoneAccepts(p: string)
    requires p != ""
    ensures CleanPhone(Some(p)).Ok? <==> PhoneShaped(p)
  {
    var q := StripSeparators(p);
    if IsDigitString(q) {
      assert q[0] in q && IsDigit(q[0]);
      forall c | c in p ensures IsDigit(c) || IsPhoneSeparator(c) {
        if !IsPhoneSeparator(c) {
          assert c in q;
          var i :| 0 <= i < |q| && q[i] == c;
        }
      }
    }
    if PhoneShaped(p) {
      var d :| d in p && IsDigit(d);
      assert d in q;
      forall i | 0 <= i < |q| ensures IsDigit(q[i]) {
        assert q[i] in q;
      }
    }
  }

  /** Separators alone are not a phone number. */
  lemma CleanPhoneRejectsSeparators()
    ensures CleanPhone(Some("+")).Err? && CleanPhone(Some("--")).Err?
  {
    CleanPhoneAccepts("+");
    CleanPhoneAccepts("--");
  }

  /** A number written with separators passes and is kept with them. */
  lemma CleanPhoneKeepsSeparators()
    ensures CleanPhone(Some("+1 2-3")) == Ok(Some("+1 2-3"))
  {
    var p := "+1 2-3";
    assert p[1] in p && IsDigit(p[1]);
    forall c | c in p ensures IsDigit(c) || IsPhoneSeparator(c) {
      var i :| 0 <= i < |p| && p[i] == c;
    }
    CleanPhoneAccepts(p);
  }

  // ---------------------------------------------------------------- ContactForm

  /** What the contact form posts: exactly its five fields, so the read and
      responded flags can never be chosen by the sender. */
  datatype ContactSubmission = ContactSubmission(
    name: string, email: string, phone: Option<string>, subject: string, message: string)

  /** The cleaned contact form. */
  datatype ContactData = ContactData(
    name: string, email: string, phone: string, subject: ContactSubject, message: string)

  /** `ContactForm.is_valid()`: name required and at most 100 characters, a
      valid email of at most 254 characters, an optional phone of at most 15 characters that passes
      `clean_phone`, a subject among the choices and a message. Only the first
      failing check is reported. */
  function CleanContact(f: ContactSubmission, isEmail: string -> bool): (r: Outcome<ContactData>)
    ensures r.Ok? <==> && f.name != "" && |f.name| <= 100
                       && f.email != "" && |f.email| <= 254 && isEmail(f.email)
                       && (f.phone.Some? ==> |f.phone.value| <= 15)
                       && CleanPhone(f.phone).Ok?
                       && ParseContactSubject(f.subject).Some? && f.message != ""
    ensures r.Ok? ==> && r.value.name == f.name && r.value.email == f.email
                      && r.value.phone == (if f.phone.Some? then f.phone.value else "")
                      && ContactSubjectKey(r.value.subject) == f.subject
                      && r.value.message == f.message
    ensures CleanPhone(f.phone).Err? ==> r.Err?
    ensures f.name == "" || f.email == "" || f.subject == "" || f.message == "" ==> r == Err(Required)
  {
    if f.name == "" || f.email == "" || f.subject == "" || f.message == "" then Err(Required)
    else if |f.name| > 100 || |f.email| > 254 then Err(TooLong)
    else if !isEmail(f.email) then Err(InvalidEmail)
    else if f.phone.Some? && |f.phone.value| > 15 then Err(TooLong)
    else if CleanPhone(f.phone).Err? then Err(CleanPhone(f.phone).error)
    else match ParseContactSubject(f.subject)
      case None => Err(InvalidChoice)
      case Some(subject) =>
        Ok(ContactData(f.name, f.email, if f.phone.Some? then f.phone.value else "", subject, f.message))
  }

  /** `form.save()` for a valid contact form: a new message row stamped with
      the submission time. */
  function SaveContact(id: nat, d: ContactData, now: Timestamp): (c: Contact)
    ensures c.id == id && c.name == d.name && c.email == d.email && c.phone == d.phone
    ensures c.subject == d.subject && c.message == d.message && c.submittedAt == now
  {
    NewContact(id, d.name, d.email, d.phone, Some(d.subject), d.message, now)
  }

  /** Whatever is posted, a message that comes in through the contact form
      starts unread and not responded to. */
  lemma ContactFormStartsUnread(f: ContactSubmission, isEmail: string -> bool, id: nat, now: Timestamp)
    requires CleanContact(f, isEmail).Ok?
    ensures var c := SaveContact(id, CleanContact(f, isEmail).value, now);
      !c.isRead && !c.responded && ContactSubjectKey(c.subject) == f.subject
  {
  }

  // ---------------------------------------------------------------- NoticeForm

  /** What the notice form posts: title, content and target audience. */
  datatype NoticeSubmission = NoticeSubmission(title: string, content: string, targetAudience: string)

  /** `NoticeForm.is_valid()` followed by `save()`: title required and at most
      200 characters, content required, an audience among the choices. The
      creation time is the moment of saving. */
  function SaveNotice(id: nat, f: NoticeSubmission, now: Timestamp): (r: Outcome<Notice>)
    ensures r.Ok? <==> f.title != "" && |f.title| <= 200 && f.content != ""
                       && ParseAudience(f.targetAudience).Some?
    ensures r.Ok? ==> && r.value.id == id && r.value.title == f.title && r.value.content == f.content
                      && AudienceKey(r.value.targetAudience) == f.targetAudience
                      && r.value.createdAt == now
    ensures f.title == "" || f.content == "" || f.targetAudience == "" ==> r == Err(Required)
  {
    if f.title == "" || f.content == "" || f.targetAudience == "" then Err(Required)
    else if |f.title| > 200 then Err(TooLong)
    else match ParseAudience(f.targetAudience)
      case None => Err(InvalidChoice)
      case Some(a) => Ok(Notice(id, f.title, f.content, now, a))
  }
}
