/** Properties of the cascading selection: idempotence of each handler, the
    option-list invariant the handlers keep, the postal code derived by a full
    cascade, and where the handlers fall short of a fully clearing cascade. */
module AddressProps {
  import opened Wrappers
  import opened Address

  /** Writing back the value an input already holds changes nothing. */
  lemma InputChangeSameValue(f: Form, id: string, value: string)
    requires Get(f.draft, id) == Some(value)
    ensures HandleInputChange(f, id, value) == f
  {
    if id !in DraftKeys {
      assert f.draft.extra[id := value] == f.draft.extra;
    }
  }

  /** Re-selecting the same province yields the same state. */
  lemma ProvinceChangeIdempotent(f: Form, choice: Option<int>)
    ensures HandleProvinceChange(HandleProvinceChange(f, choice), choice) == HandleProvinceChange(f, choice)
  {
  }

  /** Re-selecting the same district yields the same state. */
  lemma AmphureChangeIdempotent(f: Form, choice: Option<int>)
    ensures HandleAmphureChange(HandleAmphureChange(f, choice), choice) == HandleAmphureChange(f, choice)
  {
  }

  /** Re-selecting the same subdistrict yields the same state. */
  lemma TambonChangeIdempotent(f: Form, choice: Option<int>)
    ensures HandleTambonChange(HandleTambonChange(f, choice), choice) == HandleTambonChange(f, choice)
  {
  }

  /** The option lists the handlers do keep in step: the selected province
      (when there is one) is from the tree and supplies the district options;
      the district options are empty or some province's districts; the
      subdistrict options are empty or the subdistricts of a current district
      option. */
  ghost predicate OptionsConsistent(f: Form)
  {
    && (f.selProvince.Some? ==> f.selProvince.value in f.provinces && f.amphures == f.selProvince.value.amphures)
    && (f.amphures == [] || exists p :: p in f.provinces && f.amphures == p.amphures)
    && (f.tambons == [] || exists a :: a in f.amphures && f.tambons == a.tambons)
  }

  lemma InitialFormConsistent(provinces: seq<Province>)
    ensures OptionsConsistent(InitialForm(provinces))
    ensures InitialForm(provinces).draft.postalCode == ""
  {
  }

  lemma InputChangeKeepsConsistent(f: Form, id: string, value: string)
    requires OptionsConsistent(f)
    ensures OptionsConsistent(HandleInputChange(f, id, value))
  {
  }

  lemma ProvinceChangeKeepsConsistent(f: Form, choice: Option<int>)
    requires OptionsConsistent(f)
    ensures OptionsConsistent(HandleProvinceChange(f, choice))
  {
    var r := HandleProvinceChange(f, choice);
    if r.selProvince.Some? {
      assert r.selProvince.value in r.provinces && r.amphures == r.selProvince.value.amphures;
    }
  }

  lemma AmphureChangeKeepsConsistent(f: Form, choice: Option<int>)
    requires OptionsConsistent(f)
    ensures OptionsConsistent(HandleAmphureChange(f, choice))
  {
    var r := HandleAmphureChange(f, choice);
    if r.selAmphure.Some? && Listed(f.amphures, AmphureId, choice) {
      assert r.selAmphure.value in r.amphures && r.tambons == r.selAmphure.value.tambons;
    }
  }

  lemma TambonChangeKeepsConsistent(f: Form, choice: Option<int>)
    requires OptionsConsistent(f)
    ensures OptionsConsistent(HandleTambonChange(f, choice))
  {
  }

  /** Ids are unique within a list. */
  ghost predicate UniqueIds<T>(xs: seq<T>, idOf: T -> int)
  {
    forall i, j :: 0 <= i < |xs| && 0 <= j < |xs| && idOf(xs[i]) == idOf(xs[j]) ==> i == j
  }

  /** With unique ids, `find` returns exactly the listed element of that id. */
  lemma FindUnique<T>(xs: seq<T>, idOf: T -> int, x: T)
    requires UniqueIds(xs, idOf) && x in xs
    ensures Find(xs, idOf, Some(idOf(x))) == Some(x)
  {
    var k :| 0 <= k < |xs| && xs[k] == x;
    var r := FirstWithId(xs, idOf, idOf(x));
    assert r.Some?;
  }

  /** Selecting a province, one of its districts and one of that district's
      subdistricts writes all three names and copies the subdistrict's postal
      code, whatever was selected before. */
  lemma {:induction false} CascadeDerivesPostalCode(f: Form, p: Province, a: Amphure, t: Tambon)
    requires p in f.provinces && a in p.amphures && t in a.tambons
    requires UniqueIds(f.provinces, ProvinceId) && UniqueIds(p.amphures, AmphureId) && UniqueIds(a.tambons, TambonId)
    ensures
      var f3 := HandleTambonChange(HandleAmphureChange(HandleProvinceChange(f, Some(p.id)), Some(a.id)), Some(t.id));
      && f3.draft.postalCode == t.zip
      && f3.draft.subDistrict == t.name && f3.draft.district == a.name && f3.draft.province == p.name
      && f3.draft.etc == f.draft.etc
      && f3.selProvince == Some(p) && f3.selAmphure == Some(a) && f3.selTambon == Some(t)
      && f3.amphures == p.amphures && f3.tambons == a.tambons
  {
    FindUnique(f.provinces, ProvinceId, p);
    var f1 := HandleProvinceChange(f, Some(p.id));
    assert f1.selProvince == Some(p) && f1.amphures == p.amphures;
    FindUnique(f1.amphures, AmphureId, a);
    var f2 := HandleAmphureChange(f1, Some(a.id));
    assert f2.selAmphure == Some(a) && f2.tambons == a.tambons;
    FindUnique(f2.tambons, TambonId, t);
  }

  /** Province 1 -> district 10 -> subdistrict 100 with postal code "10100". */
  lemma CascadeExample()
    ensures
      var t := Tambon(100, "Sub A", "10100");
      var a := Amphure(10, "District A", [t]);
      var p := Province(1, "Province A", [a]);
      var f3 := HandleTambonChange(HandleAmphureChange(HandleProvinceChange(InitialForm([p]), Some(1)), Some(10)), Some(100));
      f3.draft.postalCode == "10100" && f3.selTambon == Some(t)
  {
  }

  /** The full cascade the form's selects are meant to show: each selection
      lies under the one above it and each option list is the children of the
      selection above it. */
  ghost predicate Cascaded(f: Form)
  {
    && (f.selProvince.Some? ==> f.amphures == f.selProvince.value.amphures)
    && (f.selAmphure.Some? ==>
          f.selProvince.Some? && f.selAmphure.value in f.selProvince.value.amphures
          && f.tambons == f.selAmphure.value.tambons)
    && (f.selTambon.Some? ==> f.selAmphure.Some? && f.selTambon.value in f.tambons)
  }

  /** Changing province does not clear the district and subdistrict
      selections: from a fully cascaded state, picking another province leaves
      the old district selected under a province that does not contain it. */
  lemma ProvinceChangeKeepsStaleSelections()
    ensures
      var t := Tambon(100, "Sub A", "10100");
      var a := Amphure(10, "District A", [t]);
      var b := Amphure(20, "District B", []);
      var p := Province(1, "Province A", [a]);
      var q := Province(2, "Province B", [b]);
      var f3 := HandleTambonChange(HandleAmphureChange(HandleProvinceChange(InitialForm([p, q]), Some(1)), Some(10)), Some(100));
      var f4 := HandleProvinceChange(f3, Some(2));
      && Cascaded(f3)
      && !Cascaded(f4)
      && f4.selAmphure == Some(a) && f4.selTambon == Some(t)
      && f4.draft.district == "" && f4.draft.postalCode == ""
  {
    var t := Tambon(100, "Sub A", "10100");
    var a := Amphure(10, "District A", [t]);
    var p := Province(1, "Province A", [a]);
    var q := Province(2, "Province B", [Amphure(20, "District B", [])]);
    var f1 := HandleProvinceChange(InitialForm([p, q]), Some(1));
    assert f1.selProvince == Some(p) && f1.amphures == [a];
    var f2 := HandleAmphureChange(f1, Some(10));
    assert f2.selAmphure == Some(a) && f2.tambons == [t];
    var f3 := HandleTambonChange(f2, Some(100));
    assert f3.selTambon == Some(t);
  }

  /** Changing district does not clear the subdistrict selection: from a
      fully cascaded state, picking another district of the same province
      leaves the old subdistrict selected although it is not among the new
      subdistrict options. */
  lemma AmphureChangeKeepsStaleTambon()
    ensures
      var t := Tambon(100, "Sub A", "10100");
      var u := Tambon(200, "Sub B", "10200");
      var a := Amphure(10, "District A", [t]);
      var b := Amphure(20, "District B", [u]);
      var p := Province(1, "Province A", [a, b]);
      var f3 := HandleTambonChange(HandleAmphureChange(HandleProvinceChange(InitialForm([p]), Some(1)), Some(10)), Some(100));
      var f4 := HandleAmphureChange(f3, Some(20));
      && Cascaded(f3)
      && !Cascaded(f4)
      && f4.selAmphure == Some(b) && f4.tambons == [u]
      && f4.selTambon == Some(t) && t !in f4.tambons
      && f4.draft.subDistrict == "" && f4.draft.postalCode == ""
  {
    var t := Tambon(100, "Sub A", "10100");
    var u := Tambon(200, "Sub B", "10200");
    var a := Amphure(10, "District A", [t]);
    var b := Amphure(20, "District B", [u]);
    var p := Province(1, "Province A", [a, b]);
    var f1 := HandleProvinceChange(InitialForm([p]), Some(1));
    assert f1.selProvince == Some(p) && f1.amphures == [a, b];
    var f2 := HandleAmphureChange(f1, Some(10));
    assert f2.selAmphure == Some(a) && f2.tambons == [t];
    var f3 := HandleTambonChange(f2, Some(100));
    assert f3.selTambon == Some(t);
    assert FirstWithId([a, b], AmphureId, 20) == Some(1) by {
      assert [a, b][1..] == [b];
    }
    assert Find(f3.amphures, AmphureId, Some(20)) == Some(b);
  }

  /** Choosing the subdistrict placeholder clears the subdistrict selection
      but keeps the postal code and subdistrict name in the draft. */
  lemma {:induction false} PlaceholderSubdistrictKeepsPostalCode(f: Form, p: Province, a: Amphure, t: Tambon)
    requires p in f.provinces && a in p.amphures && t in a.tambons
    requires UniqueIds(f.provinces, ProvinceId) && UniqueIds(p.amphures, AmphureId) && UniqueIds(a.tambons, TambonId)
    ensures
      var f3 := HandleTambonChange(HandleAmphureChange(HandleProvinceChange(f, Some(p.id)), Some(a.id)), Some(t.id));
      var f4 := HandleTambonChange(f3, None);
      f4.selTambon.None? && f4.draft.postalCode == t.zip && f4.draft.subDistrict == t.name
  {
    CascadeDerivesPostalCode(f, p, a, t);
  }
}
