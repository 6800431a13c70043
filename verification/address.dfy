/** The address form's cascading province -> district (amphure) -> subdistrict
    (tambon) selection, as a record of form state and one pure transition per
    event handler (src/components/AddressForm.js). */
module Address {
  import opened Wrappers

  /** A subdistrict; `zip` is the postal code carried at the leaf. */
  datatype Tambon = Tambon(id: int, name: string, zip: string)

  /** A district with its embedded subdistricts. */
  datatype Amphure = Amphure(id: int, name: string, tambons: seq<Tambon>)

  /** A province with its embedded districts. */
  datatype Province = Province(id: int, name: string, amphures: seq<Amphure>)

  /** The address draft. The eight named fields are the keys of the initial
      state object; `extra` holds any other key an input event adds through
      the object spread, which nothing later reads. */
  datatype Draft = Draft(
    etc: string,
    subDistrict: string,
    district: string,
    province: string,
    postalCode: string,
    telHome: string,
    houseRegNum: string,
    addrType: string,
    extra: map<string, string>)

  /** The whole form state: the draft, the province tree loaded at mount, the
      two dependent option lists and the three current selections (`None`
      stands for both `null` and the `undefined` of a failed `find`). */
  datatype Form = Form(
    draft: Draft,
    provinces: seq<Province>,
    amphures: seq<Amphure>,
    tambons: seq<Tambon>,
    selProvince: Option<Province>,
    selAmphure: Option<Amphure>,
    selTambon: Option<Tambon>)

  const EtcKey := "addr_etc"
  const SubDistrictKey := "addr_sub_dist"
  const DistrictKey := "addr_dist"
  const ProvinceKey := "addr_prv"
  const PostalCodeKey := "addr_pos_code"
  const TelHomeKey := "addr_tel_home"
  const HouseRegNumKey := "house_reg_num"
  const AddrTypeKey := "addr_type"

  /** The keys of the draft's named fields. */
  const DraftKeys: set<string> :=
    {EtcKey, SubDistrictKey, DistrictKey, ProvinceKey, PostalCodeKey, TelHomeKey, HouseRegNumKey, AddrTypeKey}

  /** The draft the form starts with and returns to after a saved submission. */
  const InitialDraft := Draft("", "", "", "", "", "", "", "current", map[])

  /** The form state at mount, once the province tree has been loaded. */
  function InitialForm(provinces: seq<Province>): Form
  {
    Form(InitialDraft, provinces, [], [], None, None, None)
  }

  /** The draft as a JavaScript object: the value under `key`, if any. */
  function Get(d: Draft, key: string): Option<string>
  {
    if key == EtcKey then Some(d.etc)
    else if key == SubDistrictKey then Some(d.subDistrict)
    else if key == DistrictKey then Some(d.district)
    else if key == ProvinceKey then Some(d.province)
    else if key == PostalCodeKey then Some(d.postalCode)
    else if key == TelHomeKey then Some(d.telHome)
    else if key == HouseRegNumKey then Some(d.houseRegNum)
    else if key == AddrTypeKey then Some(d.addrType)
    else if key in d.extra then Some(d.extra[key])
    else None
  }

  /** The initial draft holds exactly the eight named keys, all empty except
      the address type, which defaults to "current". */
  lemma InitialDraftDefaults(key: string)
    ensures key in DraftKeys ==> Get(InitialDraft, key) == Some(if key == AddrTypeKey then "current" else "")
    ensures key !in DraftKeys ==> Get(InitialDraft, key).None?
  {
  }

  /** `{...d, [key]: value}`. */
  function Set(d: Draft, key: string, value: string): Draft
  {
    if key == EtcKey then d.(etc := value)
    else if key == SubDistrictKey then d.(subDistrict := value)
    else if key == DistrictKey then d.(district := value)
    else if key == ProvinceKey then d.(province := value)
    else if key == PostalCodeKey then d.(postalCode := value)
    else if key == TelHomeKey then d.(telHome := value)
    else if key == HouseRegNumKey then d.(houseRegNum := value)
    else if key == AddrTypeKey then d.(addrType := value)
    else d.(extra := d.extra[key := value])
  }

  /** Index of the first element of `xs` whose id is `id`
      (`xs.find(x => x.id === id)`). */
  function FirstWithId<T>(xs: seq<T>, idOf: T -> int, id: int): (r: Option<nat>)
    ensures r.Some? ==> r.value < |xs| && idOf(xs[r.value]) == id
    ensures r.Some? ==> forall j :: 0 <= j < r.value ==> idOf(xs[j]) != id
    ensures r.None? <==> forall j :: 0 <= j < |xs| ==> idOf(xs[j]) != id
  {
    if |xs| == 0 then None
    else if idOf(xs[0]) == id then Some(0)
    else
      match FirstWithId(xs[1..], idOf, id)
      case None => None
      case Some(k) => Some(k + 1)
  }

  /** Some element of `xs` has the selected id. */
  predicate Listed<T>(xs: seq<T>, idOf: T -> int, choice: Option<int>)
  {
    choice.Some? && exists j :: 0 <= j < |xs| && idOf(xs[j]) == choice.value
  }

  /** The element `find` returns for a select value: `None` for the
      placeholder (whose `parseInt` is NaN, equal to no id) or an unknown id. */
  function Find<T>(xs: seq<T>, idOf: T -> int, choice: Option<int>): (r: Option<T>)
    ensures r.Some? <==> Listed(xs, idOf, choice)
    ensures r.Some? ==> r.value in xs && Some(idOf(r.value)) == choice
    ensures r.Some? ==>
      exists k :: 0 <= k < |xs| && xs[k] == r.value && (forall j :: 0 <= j < k ==> Some(idOf(xs[j])) != choice)
  {
    if choice.None? then None
    else
      match FirstWithId(xs, idOf, choice.value)
      case None => None
      case Some(k) => Some(xs[k])
  }

  function ProvinceId(p: Province): int { p.id }
  function AmphureId(a: Amphure): int { a.id }
  function TambonId(t: Tambon): int { t.id }

  /** `handleInputChange`: the input's id names the draft key it writes. */
  function HandleInputChange(f: Form, id: string, value: string): (r: Form)
    ensures Get(r.draft, id) == Some(value)
    ensures forall key :: key != id ==> Get(r.draft, key) == Get(f.draft, key)
    ensures r == f.(draft := r.draft)
  {
    f.(draft := Set(f.draft, id, value))
  }

  /** `handleProvinceChange`. */
  function HandleProvinceChange(f: Form, choice: Option<int>): (r: Form)
    ensures r.provinces == f.provinces && r.selAmphure == f.selAmphure && r.selTambon == f.selTambon
    ensures r.tambons == []
    ensures r.selProvince == Find(f.provinces, ProvinceId, choice)
    ensures Listed(f.provinces, ProvinceId, choice) ==>
      && r.selProvince.Some? && r.selProvince.value in f.provinces
      && Some(r.selProvince.value.id) == choice
      && r.amphures == r.selProvince.value.amphures
      && r.draft.province == r.selProvince.value.name
      && r.draft.district == "" && r.draft.subDistrict == "" && r.draft.postalCode == ""
      && r.draft.etc == f.draft.etc && r.draft.telHome == f.draft.telHome
      && r.draft.houseRegNum == f.draft.houseRegNum && r.draft.addrType == f.draft.addrType
      && r.draft.extra == f.draft.extra
    ensures !Listed(f.provinces, ProvinceId, choice) ==>
      r.selProvince.None? && r.amphures == [] && r.draft == f.draft
  {
    var found := Find(f.provinces, ProvinceId, choice);
    match found
    case Some(p) =>
      f.(draft := f.draft.(province := p.name, district := "", subDistrict := "", postalCode := ""),
         amphures := p.amphures, tambons := [], selProvince := found)
    case None =>
      f.(amphures := [], tambons := [], selProvince := None)
  }

  /** `handleAmphureChange`: looks the id up in the current district options. */
  function HandleAmphureChange(f: Form, choice: Option<int>): (r: Form)
    ensures r.provinces == f.provinces && r.amphures == f.amphures
    ensures r.selProvince == f.selProvince && r.selTambon == f.selTambon
    ensures r.selAmphure == Find(f.amphures, AmphureId, choice)
    ensures Listed(f.amphures, AmphureId, choice) ==>
      && r.selAmphure.Some? && r.selAmphure.value in f.amphures
      && Some(r.selAmphure.value.id) == choice
      && r.tambons == r.selAmphure.value.tambons
      && r.draft == f.draft.(district := r.selAmphure.value.name, subDistrict := "", postalCode := "")
    ensures !Listed(f.amphures, AmphureId, choice) ==>
      r.selAmphure.None? && r.tambons == [] && r.draft == f.draft
  {
    var found := Find(f.amphures, AmphureId, choice);
    match found
    case Some(a) =>
      f.(draft := f.draft.(district := a.name, subDistrict := "", postalCode := ""),
         tambons := a.tambons, selAmphure := found)
    case None =>
      f.(tambons := [], selAmphure := None)
  }

  /** `handleTambonChange`: looks the id up in the current subdistrict options
      and copies the postal code from the leaf. */
  function HandleTambonChange(f: Form, choice: Option<int>): (r: Form)
    ensures r.provinces == f.provinces && r.amphures == f.amphures && r.tambons == f.tambons
    ensures r.selProvince == f.selProvince && r.selAmphure == f.selAmphure
    ensures r.selTambon == Find(f.tambons, TambonId, choice)
    ensures Listed(f.tambons, TambonId, choice) ==>
      && r.selTambon.Some? && r.selTambon.value in f.tambons
      && Some(r.selTambon.value.id) == choice
      && r.draft == f.draft.(subDistrict := r.selTambon.value.name, postalCode := r.selTambon.value.zip)
    ensures !Listed(f.tambons, TambonId, choice) ==> r.selTambon.None? && r.draft == f.draft
  {
    var found := Find(f.tambons, TambonId, choice);
    match found
    case Some(t) =>
      f.(draft := f.draft.(subDistrict := t.name, postalCode := t.zip), selTambon := found)
    case None =>
      f.(selTambon := None)
  }
}
