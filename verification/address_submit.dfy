/** The address form's submit handler: validation, the session-token check,
    payload assembly, and the reset after a saved submission
    (src/components/AddressForm.js). The POST itself is outside the model; its
    reply is a parameter. */
module AddressSubmit {
  import opened Wrappers
  import opened Text
  import opened Address
  import AddressProps

  /** The JSON body sent to the address endpoint; `None` is JSON `null`. */
  datatype Payload = Payload(
    etc: string,
    subDistrict: string,
    district: string,
    province: string,
    postalCode: string,
    telHome: Option<string>,
    houseRegNum: Option<string>,
    addrType: string)

  /** The request made: body and `Authorization` header. */
  datatype Request = Request(payload: Payload, authorization: string)

  /** How the POST ended: a reply with its `status`, or a thrown error with the
      server's `message` (if a response came back) and the error's own
      `message`. */
  datatype PostReply =
    | Answered(status: string)
    | Thrown(serverMessage: Option<string>, errorMessage: Option<string>)

  /** The dialog shown. */
  datatype Notice = NoNotice | Saved | Failed(text: string)

  datatype SubmitOutcome = SubmitOutcome(form: Form, request: Option<Request>, notice: Notice)

  const ValidationMessage := "กรุณากรอกข้อมูลที่อยู่ให้ครบถ้วน"
  const LoginMessage := "กรุณาเข้าสู่ระบบ"
  const SaveFallbackMessage := "ไม่สามารถบันทึกข้อมูลได้"

  /** The four required fields are all non-empty. */
  predicate Complete(d: Draft)
  {
    Truthy(d.province) && Truthy(d.district) && Truthy(d.subDistrict) && Truthy(d.etc)
  }

  /** The keys validation requires. */
  const RequiredKeys: set<string> := {ProvinceKey, DistrictKey, SubDistrictKey, EtcKey}

  /** Validation passes exactly when each required key holds a non-empty
      value; the phone, house registration, postal code and type are not
      checked. */
  lemma CompleteIff(d: Draft)
    ensures Complete(d) <==> forall key :: key in RequiredKeys ==> Get(d, key) != Some("")
    ensures forall key :: key in RequiredKeys ==> Get(d, key).Some?
    ensures Complete(d) ==> Complete(d.(postalCode := "", telHome := "", houseRegNum := "", addrType := ""))
  {
    if !Complete(d) {
      if d.province == "" { assert Get(d, ProvinceKey) == Some(""); }
      else if d.district == "" { assert Get(d, DistrictKey) == Some(""); }
      else if d.subDistrict == "" { assert Get(d, SubDistrictKey) == Some(""); }
      else { assert Get(d, EtcKey) == Some(""); }
    }
  }

  /** `value || null`. */
  function NullIfEmpty(s: string): (r: Option<string>)
    ensures r.None? <==> s == ""
    ensures r.Some? ==> r.value == s
  {
    if Truthy(s) then Some(s) else None
  }

  /** The payload built from the draft; the postal code is already text. */
  function MakePayload(d: Draft): (p: Payload)
    ensures p.etc == d.etc && p.subDistrict == d.subDistrict && p.district == d.district
    ensures p.province == d.province && p.postalCode == d.postalCode && p.addrType == d.addrType
    ensures p.telHome.None? <==> d.telHome == ""
    ensures p.houseRegNum.None? <==> d.houseRegNum == ""
  {
    Payload(d.etc, d.subDistrict, d.district, d.province, d.postalCode,
            NullIfEmpty(d.telHome), NullIfEmpty(d.houseRegNum), d.addrType)
  }

  /** Reads a payload back into a draft, `null` becoming the empty string. */
  function DraftOf(p: Payload): Draft
  {
    Draft(p.etc, p.subDistrict, p.district, p.province, p.postalCode,
          OrEmpty(p.telHome), OrEmpty(p.houseRegNum), p.addrType, map[])
  }

  /** The payload loses nothing but the keys no handler reads. */
  lemma PayloadRoundTrip(d: Draft)
    ensures DraftOf(MakePayload(d)) == d.(extra := map[])
  {
  }

  /** The error text: the server's message, else the error's, else the
      generic fallback. */
  function ErrorText(serverMessage: Option<string>, errorMessage: Option<string>): (r: string)
    ensures serverMessage.Some? && serverMessage.value != "" ==> r == serverMessage.value
    ensures OrEmpty(serverMessage) == "" && errorMessage.Some? && errorMessage.value != "" ==> r == errorMessage.value
    ensures OrEmpty(serverMessage) == "" && OrEmpty(errorMessage) == "" ==> r == SaveFallbackMessage
  {
    OrElse(OrElse(OrEmpty(serverMessage), OrEmpty(errorMessage)), SaveFallbackMessage)
  }

  /** `handleSubmit`. `token` is what storage holds under "token". */
  function Submit(f: Form, token: Option<string>, reply: PostReply): (r: SubmitOutcome)
    ensures !Complete(f.draft) ==>
      r.request.None? && r.notice == Failed(ValidationMessage) && r.form == f
    ensures Complete(f.draft) && OrEmpty(token) == "" ==>
      r.request.None? && r.notice == Failed(LoginMessage) && r.form == f
    ensures r.request.Some? <==> Complete(f.draft) && OrEmpty(token) != ""
    ensures r.request.Some? ==>
      r.request.value.payload == MakePayload(f.draft) && r.request.value.authorization == "Bearer " + token.value
    ensures r.request.Some? && reply == Answered("success") ==>
      && r.notice == Saved
      && r.form.draft == InitialDraft
      && r.form.selProvince.None? && r.form.selAmphure.None? && r.form.selTambon.None?
      && r.form.provinces == f.provinces && r.form.amphures == f.amphures && r.form.tambons == f.tambons
    ensures r.request.Some? && reply.Answered? && reply.status != "success" ==> r.notice == NoNotice && r.form == f
    ensures r.request.Some? && reply.Thrown? ==>
      r.notice == Failed(ErrorText(reply.serverMessage, reply.errorMessage)) && r.form == f
  {
    if !Complete(f.draft) then
      SubmitOutcome(f, None, Failed(ValidationMessage))
    else if !Truthy(OrEmpty(token)) then
      SubmitOutcome(f, None, Failed(LoginMessage))
    else
      var request := Request(MakePayload(f.draft), "Bearer " + token.value);
      match reply
      case Answered(status) =>
        if status == "success" then
          SubmitOutcome(f.(draft := InitialDraft, selProvince := None, selAmphure := None, selTambon := None),
                        Some(request), Saved)
        else
          SubmitOutcome(f, Some(request), NoNotice)
      case Thrown(serverMessage, errorMessage) =>
        SubmitOutcome(f, Some(request), Failed(ErrorText(serverMessage, errorMessage)))
  }

  /** The initial draft never passes validation, so a fresh or just-reset
      form cannot be submitted without edits. */
  lemma InitialDraftIncomplete(f: Form, token: Option<string>, reply: PostReply)
    requires f.draft == InitialDraft
    ensures Submit(f, token, reply).request.None?
    ensures Submit(f, token, reply).notice == Failed(ValidationMessage)
  {
  }

  /** A saved submission keeps the option lists in step (the province tree
      and lists are untouched and nothing stays selected). */
  lemma SubmitKeepsConsistent(f: Form, token: Option<string>, reply: PostReply)
    requires AddressProps.OptionsConsistent(f)
    ensures AddressProps.OptionsConsistent(Submit(f, token, reply).form)
  {
  }
}
