/** The registration wizard of the kiosk: a camera step, a form step, a success step
    that returns to the camera after a timeout, and an optional welcome step. It
    validates the form with the same rules as the server, and posts the fields that
    are filled in together with the selfie. */
module Registration {
  import opened Base
  import Participants
  import Store

  datatype Step = Welcome | Camera | Form | Success

  /** The form's fields; the inputs hold strings and start empty. */
  datatype FormValues = FormValues(name: string, email: string, phone: string)

  const EmptyForm := FormValues("", "", "")

  /** The client-side schema: a name of 2 to 50 characters, an empty or well-formed
      email, an empty phone or one of at least 10 characters. */
  predicate ClientAccepts(v: FormValues, isEmail: string -> bool)
    ensures ClientAccepts(v, isEmail) ==> 2 <= |v.name| <= 50
    ensures v.email != "" && !isEmail(v.email) ==> !ClientAccepts(v, isEmail)
    ensures v.phone != "" && |v.phone| < 10 ==> !ClientAccepts(v, isEmail)
  {
    && 2 <= |v.name| <= 50
    && (isEmail(v.email) || v.email == "")
    && (|v.phone| >= 10 || v.phone == "")
  }

  /** The client accepts a form exactly when the server accepts the same fields,
      whatever selfie comes with them. */
  lemma ClientMatchesServer(v: FormValues, selfie: Option<string>, isEmail: string -> bool)
    ensures ClientAccepts(v, isEmail) <==>
      Participants.SchemaIssues(Participants.Payload(v.name, Some(v.email), Some(v.phone), selfie), isEmail) == []
  {
  }

  /** One multipart form entry: a text field or the selfie file made from the image. */
  datatype EntryValue = Text(text: string) | SelfieFile(source: string)

  datatype Entry = Entry(key: string, value: EntryValue)

  /** The form data of a submission: the name always; email and phone when filled in;
      the selfie when there is one. */
  function FormDataFor(v: FormValues, selfie: Option<string>): (fd: seq<Entry>)
    ensures 1 <= |fd| <= 4 && fd[0] == Entry("name", Text(v.name))
    ensures |fd| == 4 <==> v.email != "" && v.phone != "" && Truthy(selfie)
  {
    [Entry("name", Text(v.name))]
    + (if v.email != "" then [Entry("email", Text(v.email))] else [])
    + (if v.phone != "" then [Entry("phone", Text(v.phone))] else [])
    + (if Truthy(selfie) then [Entry("selfie", SelfieFile(selfie.value))] else [])
  }

  predicate HasKey(fd: seq<Entry>, key: string) {
    exists e :: e in fd && e.key == key
  }

  /** What a submission carries: the name first; email, phone and selfie present
      exactly when they are non-empty, each once and with its own value. */
  lemma {:induction false} FormDataFields(v: FormValues, selfie: Option<string>)
    ensures var fd := FormDataFor(v, selfie);
      && fd[0] == Entry("name", Text(v.name))
      && (HasKey(fd, "email") <==> v.email != "")
      && (HasKey(fd, "phone") <==> v.phone != "")
      && (HasKey(fd, "selfie") <==> Truthy(selfie))
      && (forall e :: e in fd && e.key == "name" ==> e.value == Text(v.name))
      && (forall e :: e in fd && e.key == "email" ==> e.value == Text(v.email))
      && (forall e :: e in fd && e.key == "phone" ==> e.value == Text(v.phone))
      && (forall e :: e in fd && e.key == "selfie" ==> e.value == SelfieFile(selfie.value))
  {
    var fd := FormDataFor(v, selfie);
    var name := Entry("name", Text(v.name));
    var email := if v.email != "" then [Entry("email", Text(v.email))] else [];
    var phone := if v.phone != "" then [Entry("phone", Text(v.phone))] else [];
    var file := if Truthy(selfie) then [Entry("selfie", SelfieFile(selfie.value))] else [];
    assert fd == [name] + email + phone + file;
    assert forall e :: e in fd <==> e == name || e in email || e in phone || e in file;
    if v.email != "" {
      assert email[0] in fd;
    }
    if v.phone != "" {
      assert phone[0] in fd;
    }
    if Truthy(selfie) {
      assert file[0] in fd;
    }
  }

  function KeyOf(e: Entry): string {
    e.key
  }

  /** No key is appended twice. */
  lemma FormDataKeysDistinct(v: FormValues, selfie: Option<string>)
    ensures DistinctBy(FormDataFor(v, selfie), KeyOf)
  {
    var fd := FormDataFor(v, selfie);
    var keys := ["name", "email", "phone", "selfie"];
    var rank := (e: Entry) => if e.key == "name" then 0 else if e.key == "email" then 1 else if e.key == "phone" then 2 else 3;
    assert forall i :: 0 <= i < |fd| ==> fd[i].key in keys;
    assert forall i, j :: 0 <= i < j < |fd| ==> rank(fd[i]) < rank(fd[j]);
  }

  /** handleSubmitWithSuccess's form building: append the name, then each filled-in
      optional field, then the selfie. */
  method BuildFormData(v: FormValues, selfie: Option<string>) returns (fd: seq<Entry>)
    ensures fd == FormDataFor(v, selfie)
  {
    fd := [];
    fd := fd + [Entry("name", Text(v.name))];
    if v.email != "" {
      fd := fd + [Entry("email", Text(v.email))];
    }
    if v.phone != "" {
      fd := fd + [Entry("phone", Text(v.phone))];
    }
    if Truthy(selfie) {
      fd := fd + [Entry("selfie", SelfieFile(selfie.value))];
    }
  }

  class RegistrationForm {
    var currentStep: Step
    var selfieImage: Option<string>
    /** Handed to the capture component; every change makes it start over. */
    var resetTrigger: nat
    var values: FormValues
    /** Return-to-camera timeouts scheduled and not yet run. */
    var pendingReturns: nat
    /** How many times the page's onSuccess was called. */
    var successNotices: nat
    /** The form-data bodies sent to the registration route, in order. */
    var posted: seq<seq<Entry>>

    /** The form step always has a selfie to show, the success screen follows a sent
        submission, and a return timeout is pending exactly while that screen is up. */
    ghost predicate Valid()
      reads this
    {
      && (currentStep == Form ==> selfieImage.Some?)
      && (currentStep == Success ==> posted != [])
      && pendingReturns == (if currentStep == Success then 1 else 0)
    }

    constructor ()
      ensures Valid()
      ensures currentStep == Camera && selfieImage.None? && resetTrigger == 0 && values == EmptyForm
      ensures pendingReturns == 0 && successNotices == 0 && posted == []
    {
      currentStep := Camera;
      selfieImage := None;
      resetTrigger := 0;
      values := EmptyForm;
      pendingReturns, successNotices := 0, 0;
      posted := [];
    }

    /** The welcome screen's start button: its only way out, to the camera. Every
        other handler needs the camera step, the form step or a pending return
        timeout, and `Valid()` ties a pending timeout to the success step. */
    method Begin()
      requires Valid() && currentStep == Welcome
      modifies this
      ensures Valid() && currentStep == Camera
      ensures selfieImage == old(selfieImage) && resetTrigger == old(resetTrigger) && values == old(values)
      ensures pendingReturns == old(pendingReturns) && successNotices == old(successNotices) && posted == old(posted)
    {
      currentStep := Camera;
    }

    /** The capture component, shown only on the camera step, handed over an image:
        keep it and show the form. */
    method HandleSelfieCapture(image: string)
      requires Valid() && currentStep == Camera
      modifies this
      ensures Valid()
      ensures selfieImage == Some(image) && currentStep == Form
      ensures resetTrigger == old(resetTrigger) && values == old(values)
      ensures pendingReturns == old(pendingReturns) && successNotices == old(successNotices) && posted == old(posted)
    {
      selfieImage := Some(image);
      currentStep := Form;
    }

    /** The form step's retake and back buttons: drop the selfie, go back to the
        camera and make the capture component start over. */
    method HandleRetakeSelfie()
      requires Valid() && currentStep == Form
      modifies this
      ensures Valid()
      ensures selfieImage.None? && currentStep == Camera
      ensures resetTrigger == old(resetTrigger) + 1 && resetTrigger > 0
      ensures values == old(values)
      ensures pendingReturns == old(pendingReturns) && successNotices == old(successNotices) && posted == old(posted)
    {
      selfieImage := None;
      currentStep := Camera;
      resetTrigger := resetTrigger + 1;
    }

    /** Show the success screen and schedule the return to the camera. No control
        calls it: only a submission that was sent and answered ok does. */
    method HandleFormSuccess()
      requires Valid() && currentStep == Form && posted != []
      modifies this
      ensures Valid()
      ensures currentStep == Success && pendingReturns == 1
      ensures selfieImage == old(selfieImage) && resetTrigger == old(resetTrigger) && values == old(values)
      ensures successNotices == old(successNotices) && posted == old(posted)
    {
      currentStep := Success;
      pendingReturns := pendingReturns + 1;
    }

    /** The return timeout: back to the camera with no selfie, an empty form and a
        capture component that starts over. */
    method FireReturnTimer()
      requires Valid() && pendingReturns > 0
      modifies this
      ensures Valid() && old(currentStep) == Success
      ensures currentStep == Camera && selfieImage.None? && values == EmptyForm
      ensures resetTrigger == old(resetTrigger) + 1 && resetTrigger > 0
      ensures pendingReturns == 0
      ensures successNotices == old(successNotices) && posted == old(posted)
    {
      currentStep := Camera;
      selfieImage := None;
      values := EmptyForm;
      resetTrigger := resetTrigger + 1;
      pendingReturns := pendingReturns - 1;
    }

    /** The user edits the inputs of the form step. */
    method Edit(v: FormValues)
      requires Valid() && currentStep == Form
      modifies this
      ensures Valid() && values == v
      ensures currentStep == old(currentStep) && selfieImage == old(selfieImage) && resetTrigger == old(resetTrigger)
      ensures pendingReturns == old(pendingReturns) && successNotices == old(successNotices) && posted == old(posted)
    {
      values := v;
    }

    /** The submit button. A form the client schema refuses is not sent. Otherwise the
        form data is built and posted, unless the selfie cannot be read back into a
        file (`selfieReadable`); only an ok answer (`responseOk`) notifies the page and
        moves on to the success step. Every failure leaves the step, the selfie and the
        entered values as they were. */
    method Submit(isEmail: string -> bool, selfieReadable: bool, responseOk: bool)
      requires Valid() && currentStep == Form
      modifies this
      ensures Valid()
      ensures values == old(values) && resetTrigger == old(resetTrigger) && selfieImage == old(selfieImage)
      ensures posted == if Sends(isEmail, selfieReadable) then old(posted) + [FormDataFor(values, selfieImage)] else old(posted)
      ensures Sends(isEmail, selfieReadable) ==>
        (HasKey(posted[|posted| - 1], "selfie") <==> Truthy(selfieImage))
      ensures Sends(isEmail, selfieReadable) && responseOk ==>
        currentStep == Success && successNotices == old(successNotices) + 1 &&
        pendingReturns == 1
      ensures !(Sends(isEmail, selfieReadable) && responseOk) ==>
        currentStep == old(currentStep) && successNotices == old(successNotices) &&
        pendingReturns == old(pendingReturns)
    {
      if !ClientAccepts(values, isEmail) {
        return;
      }
      var fd := BuildFormData(values, selfieImage);
      if Truthy(selfieImage) && !selfieReadable {
        return;
      }
      posted := posted + [fd];
      FormDataFields(values, selfieImage);
      if !responseOk {
        return;
      }
      successNotices := successNotices + 1;
      HandleFormSuccess();
    }

    /** The request is sent: the form passes the client schema and, when there is a
        selfie, it could be read back into a file. */
    predicate Sends(isEmail: string -> bool, selfieReadable: bool)
      reads this
    {
      ClientAccepts(values, isEmail) && (!Truthy(selfieImage) || selfieReadable)
    }
  }

  /** One visitor from camera to camera: capture, fill in, submit successfully, wait.
      The kiosk ends where it began, with a higher reset counter so the capture
      component starts over, and the one submission carries the visitor's fields. */
  method VisitorCycle(image: string, v: FormValues, isEmail: string -> bool) returns (f: RegistrationForm)
    requires image != "" && ClientAccepts(v, isEmail)
    ensures f.Valid()
    ensures f.currentStep == Camera && f.selfieImage.None? && f.values == EmptyForm
    ensures f.resetTrigger == 1 && f.successNotices == 1 && f.pendingReturns == 0
    ensures f.posted == [FormDataFor(v, Some(image))]
  {
    f := new RegistrationForm();
    f.HandleSelfieCapture(image);
    f.Edit(v);
    f.Submit(isEmail, true, true);
    assert f.currentStep == Success;
    f.FireReturnTimer();
  }

  /** A submission the client accepts, sent to the participants route. That route reads
      only a JSON body, so the multipart form data gets the 500 answer: the request is
      posted, but the wizard stays on the form step and the page is not notified. */
  method SubmitToJsonRoute(f: RegistrationForm, isEmail: string -> bool, db: Store.Db,
                           id: string, now: nat, storeFails: bool)
    requires f.Valid() && f.currentStep == Form && f.Sends(isEmail, true)
    modifies f
    ensures f.Valid() && f.currentStep == Form
    ensures f.posted == old(f.posted) + [FormDataFor(f.values, f.selfieImage)]
    ensures f.successNotices == old(f.successNotices) && f.pendingReturns == 0
  {
    var answer := Participants.Post(db, Participants.NotJson, id, now, isEmail, storeFails);
    Participants.NonValidationFailure(db, Participants.NotJson, id, now, isEmail, storeFails);
    var ok := 200 <= answer.response.Code() < 300;
    f.Submit(isEmail, true, ok);
  }
}
