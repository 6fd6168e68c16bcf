/**
 The single configuration row (proma/config/models.py): company details read
 as a dictionary by prefix, and the path of the company logo.
 */
module Config {
  import opened Base

  /** What `getattr(self, name)` yields for each kind of field of the row. */
  datatype FieldValue =
    | IntValue(i: int)
    | TimestampValue(t: int)
    | FileValue(fileName: Option<string>)
    | TextValue(text: Option<string>)

  datatype Field = Field(name: string, value: FieldValue)

  /** `id` is the key the framework adds to every model; `created` and
      `modified` come from the timestamped base class. */
  datatype Configuration = Configuration(
    id: int,
    created: int,
    modified: int,
    companyLogo: Option<string>,
    companyLegalName: Option<string>,
    companyEmail: Option<string>,
    companyPhone: Option<string>,
    companyTaxIdentifier: Option<string>,
    companyAddress: Option<string>,
    companyState: Option<string>,
    companyCity: Option<string>,
    companyCountry: Option<string>,
    companyZipcode: Option<string>)

  /** `self._meta.get_fields()` with each field's current value, in the
      framework's order: the automatic key, the inherited timestamps, then
      the fields in declaration order. */
  function Fields(c: Configuration): seq<Field> {
    [ Field("id", IntValue(c.id)),
      Field("created", TimestampValue(c.created)),
      Field("modified", TimestampValue(c.modified)),
      Field("company_logo", FileValue(c.companyLogo)),
      Field("company_legal_name", TextValue(c.companyLegalName)),
      Field("company_email", TextValue(c.companyEmail)),
      Field("company_phone", TextValue(c.companyPhone)),
      Field("company_tax_identifier", TextValue(c.companyTaxIdentifier)),
      Field("company_address", TextValue(c.companyAddress)),
      Field("company_state", TextValue(c.companyState)),
      Field("company_city", TextValue(c.companyCity)),
      Field("company_country", TextValue(c.companyCountry)),
      Field("company_zipcode", TextValue(c.companyZipcode)) ]
  }

  /** Python's `s.startswith(prefix)`. */
  predicate StartsWith(s: string, prefix: string) {
    |prefix| <= |s| && s[..|prefix|] == prefix
  }

  /** `pat` occurs in `s` starting at index `i`. */
  predicate OccursAt(s: string, pat: string, i: nat) {
    i + |pat| <= |s| && s[i..i + |pat|] == pat
  }

  /** `pat` occurs nowhere in `s`. */
  predicate Free(s: string, pat: string) {
    forall i: nat :: i <= |s| ==> !OccursAt(s, pat, i)
  }

  lemma FreeTail(s: string, pat: string)
    requires |s| > 0
    ensures Free(s, pat) ==> Free(s[1..], pat)
  {
    forall i: nat | Free(s, pat) && i <= |s[1..]|
      ensures !OccursAt(s[1..], pat, i)
    {
      if i + |pat| <= |s[1..]| {
        assert s[1..][i..i + |pat|] == s[i + 1..i + 1 + |pat|];
        assert !OccursAt(s, pat, i + 1);
      }
    }
  }

  /** Python's `s.replace(pat, "")` for a non-empty `pat`: every occurrence
      found scanning left to right is removed, without overlaps. */
  function RemoveAll(s: string, pat: string): (r: string)
    requires |pat| > 0
    ensures |r| <= |s|
    ensures Free(s, pat) ==> r == s
    decreases |s|
  {
    if |s| < |pat| then s
    else if s[..|pat|] == pat then
      assert OccursAt(s, pat, 0);
      RemoveAll(s[|pat|..], pat)
    else
      FreeTail(s, pat);
      assert [s[0]] + s[1..] == s;
      [s[0]] + RemoveAll(s[1..], pat)
  }

  /** No occurrence before position `i` of `s` means none before `i - 1` of its tail. */
  lemma NoEarlierInTail(s: string, pat: string, i: nat)
    requires 0 < i <= |s| && forall k: nat :: k < i ==> !OccursAt(s, pat, k)
    ensures forall k: nat :: k < i - 1 ==> !OccursAt(s[1..], pat, k)
  {
    forall k: nat | k < i - 1
      ensures !OccursAt(s[1..], pat, k)
    {
      assert !OccursAt(s, pat, k + 1);
      if k + |pat| <= |s[1..]| {
        assert s[1..][k..k + |pat|] == s[k + 1..k + 1 + |pat|];
      }
    }
  }

  lemma AppendAssociative(a: string, b: string, c: string)
    ensures (a + b) + c == a + (b + c)
  {
  }

  lemma PrefixSplitsFirst(s: string, i: nat)
    requires 0 < i <= |s|
    ensures s[..i] == [s[0]] + s[1..][..i - 1]
  {
  }

  /** Removal from `s` keeps the text before position `i` and goes on after
      the occurrence of `pat` there. */
  predicate SplitsAt(s: string, pat: string, i: nat)
    requires |pat| > 0 && i + |pat| <= |s|
  {
    RemoveAll(s, pat) == s[..i] + RemoveAll(s[i + |pat|..], pat)
  }

  /** One step of the scan past a character that starts no occurrence. */
  lemma LeftmostStep(s: string, pat: string, i: nat)
    requires 0 < |pat| && 0 < i && i + |pat| <= |s| && !OccursAt(s, pat, 0)
    requires SplitsAt(s[1..], pat, i - 1)
    ensures SplitsAt(s, pat, i)
  {
    var t := s[1..];
    var tail := RemoveAll(s[i + |pat|..], pat);
    assert s[0..|pat|] == s[..|pat|];
    assert t[i - 1 + |pat|..] == s[i + |pat|..];
    assert RemoveAll(s, pat) == [s[0]] + (t[..i - 1] + tail);
    PrefixSplitsFirst(s, i);
    AppendAssociative([s[0]], t[..i - 1], tail);
  }

  lemma {:induction false} SplitsAtLeftmost(s: string, pat: string, i: nat)
    requires |pat| > 0 && OccursAt(s, pat, i)
    requires forall k: nat :: k < i ==> !OccursAt(s, pat, k)
    ensures SplitsAt(s, pat, i)
    decreases i
  {
    if i == 0 {
      assert s[..|pat|] == pat;
      assert s[..0] == [];
    } else {
      assert !OccursAt(s, pat, 0);
      var t := s[1..];
      assert OccursAt(t, pat, i - 1) by {
        assert t[i - 1..i - 1 + |pat|] == s[i..i + |pat|];
      }
      NoEarlierInTail(s, pat, i);
      SplitsAtLeftmost(t, pat, i - 1);
      LeftmostStep(s, pat, i);
    }
  }

  /** The scan removes the leftmost occurrence first: everything before it is
      kept and the removal goes on after its end. */
  lemma RemoveAllLeftmost(s: string, pat: string, i: nat)
    requires |pat| > 0 && OccursAt(s, pat, i)
    requires forall k: nat :: k < i ==> !OccursAt(s, pat, k)
    ensures RemoveAll(s, pat) == s[..i] + RemoveAll(s[i + |pat|..], pat)
  {
    SplitsAtLeftmost(s, pat, i);
  }

  /** A name that starts with `pat` and holds no other occurrence of it loses
      just that leading `pat`. */
  lemma RemoveLeadingOccurrence(pat: string, rest: string)
    requires |pat| > 0 && Free(rest, pat)
    ensures RemoveAll(pat + rest, pat) == rest
  {
    assert (pat + rest)[..|pat|] == pat;
    assert (pat + rest)[|pat|..] == rest;
  }

  /** Every occurrence goes, not only the leading one: `"a_b_a_c"` with
      prefix `"a"` becomes `"b_c"`. */
  lemma RemoveAllExample()
    ensures RemoveAll("a_b_a_c", "a_") == "b_c"
  {
    var s := "a_b_a_c";
    assert s[..2] == "a_" && s[2..] == "b_a_c";
    var t := "b_a_c";
    assert t == ['b'] + "_a_c" && t[..2][0] == 'b';
    assert t[..2] != "a_" && t[1..] == "_a_c";
    var u := "_a_c";
    assert u == ['_'] + "a_c" && u[..2][0] == '_';
    assert u[..2] != "a_" && u[1..] == "a_c";
    var w := "a_c";
    assert w[..2] == "a_" && w[2..] == "c";
    assert RemoveAll("c", "a_") == "c";
    assert RemoveAll(w, "a_") == "c";
    assert RemoveAll(u, "a_") == "_c";
    assert RemoveAll(t, "a_") == "b_c";
  }

  predicate Selected(f: Field, prefix: string) {
    StartsWith(f.name, prefix)
  }

  /** The dictionary key a selected field is stored under. */
  function InfoKey(name: string, prefix: string): string {
    RemoveAll(name, prefix + "_")
  }

  /** The keys of the fields whose names start with the prefix. */
  function SelectedKeys(fields: seq<Field>, prefix: string): set<string> {
    set i | 0 <= i < |fields| && Selected(fields[i], prefix) :: InfoKey(fields[i].name, prefix)
  }

  /** The loop of `get_info` over a list of fields: each field whose name
      starts with the prefix is stored under its key; a later field with the
      same key overwrites an earlier one. */
  function CollectInfo(fields: seq<Field>, prefix: string): (r: map<string, FieldValue>)
    ensures r.Keys == SelectedKeys(fields, prefix)
  {
    if |fields| == 0 then map[]
    else
      var n := |fields| - 1;
      var m := CollectInfo(fields[..n], prefix);
      var f := fields[n];
      assert SelectedKeys(fields, prefix)
             == SelectedKeys(fields[..n], prefix) + (if Selected(f, prefix) then {InfoKey(f.name, prefix)} else {}) by {
        assert forall i :: 0 <= i < n ==> fields[..n][i] == fields[i];
      }
      if Selected(f, prefix) then m[InfoKey(f.name, prefix) := f.value] else m
  }

  lemma CollectInfoLast(fields: seq<Field>, prefix: string)
    requires |fields| > 0
    ensures var n := |fields| - 1;
      CollectInfo(fields, prefix)
      == if Selected(fields[n], prefix) then CollectInfo(fields[..n], prefix)[InfoKey(fields[n].name, prefix) := fields[n].value]
         else CollectInfo(fields[..n], prefix)
  {
  }

  /** A selected field's value is what its key maps to, unless a later
      selected field has the same key. */
  lemma {:induction false} CollectInfoValue(fields: seq<Field>, prefix: string, i: nat, key: string)
    requires i < |fields| && Selected(fields[i], prefix) && InfoKey(fields[i].name, prefix) == key
    requires forall j :: i < j < |fields| && Selected(fields[j], prefix) ==> InfoKey(fields[j].name, prefix) != key
    ensures key in CollectInfo(fields, prefix) && CollectInfo(fields, prefix)[key] == fields[i].value
  {
    var n := |fields| - 1;
    CollectInfoLast(fields, prefix);
    if i < n {
      var init := fields[..n];
      assert init[i] == fields[i];
      assert forall j :: i < j < n ==> init[j] == fields[j];
      CollectInfoValue(init, prefix, i, key);
      assert Selected(fields[n], prefix) ==> InfoKey(fields[n].name, prefix) != key;
    }
  }

  /** `Configuration.get_info(prefix)`. */
  function GetInfo(c: Configuration, prefix: string): (r: map<string, FieldValue>)
    ensures forall k :: k in r <==>
      exists i :: 0 <= i < |Fields(c)| && StartsWith(Fields(c)[i].name, prefix) && InfoKey(Fields(c)[i].name, prefix) == k
  {
    CollectInfo(Fields(c), prefix)
  }

  /** A text shorter than the pattern cannot hold it. */
  lemma FreeWhenShorter(s: string, pat: string)
    requires |s| < |pat|
    ensures Free(s, pat)
  {
  }

  /** A text without the pattern's first character cannot hold it. */
  lemma FreeWithoutFirstChar(s: string, pat: string)
    requires |pat| > 0
    requires pat[0] !in s
    ensures Free(s, pat)
  {
    forall i: nat | i <= |s|
      ensures !OccursAt(s, pat, i)
    {
      if i + |pat| <= |s| {
        assert s[i..i + |pat|][0] == s[i];
      }
    }
  }

  /** The key of a `company_` field is the rest of its name. */
  lemma CompanyKey(rest: string)
    requires |rest| < 8 || 'c' !in rest
    ensures InfoKey("company_" + rest, "company") == rest
  {
    var pat := "company" + "_";
    assert pat == "company_";
    if |rest| < 8 {
      FreeWhenShorter(rest, pat);
    } else {
      FreeWithoutFirstChar(rest, pat);
    }
    RemoveLeadingOccurrence(pat, rest);
  }

  /** The legal name field is selected by "company" and keyed "legal_name". */
  lemma LegalNameKey(c: Configuration)
    ensures Selected(Fields(c)[4], "company")
    ensures InfoKey(Fields(c)[4].name, "company") == "legal_name"
  {
    assert Fields(c)[4].name == "company" + "_legal_name";
    assert Fields(c)[4].name == "company_" + "legal_name";
    CompanyKey("legal_name");
  }

  lemma ContactKeys(c: Configuration)
    ensures InfoKey(Fields(c)[5].name, "company") == "email"
    ensures InfoKey(Fields(c)[6].name, "company") == "phone"
  {
    assert Fields(c)[5].name == "company_" + "email";
    CompanyKey("email");
    assert Fields(c)[6].name == "company_" + "phone";
    CompanyKey("phone");
  }

  lemma TaxIdentifierKey(c: Configuration)
    ensures InfoKey(Fields(c)[7].name, "company") == "tax_identifier"
  {
    assert Fields(c)[7].name == "company_" + "tax_identifier";
    CompanyKey("tax_identifier");
  }

  lemma AddressKey(c: Configuration)
    ensures InfoKey(Fields(c)[8].name, "company") == "address"
  {
    assert Fields(c)[8].name == "company_" + "address";
    CompanyKey("address");
  }

  lemma RegionKeys(c: Configuration)
    ensures InfoKey(Fields(c)[9].name, "company") == "state"
    ensures InfoKey(Fields(c)[10].name, "company") == "city"
  {
    assert Fields(c)[9].name == "company_" + "state";
    CompanyKey("state");
    assert Fields(c)[10].name == "company_" + "city";
    CompanyKey("city");
  }

  lemma CountryKeys(c: Configuration)
    ensures InfoKey(Fields(c)[11].name, "company") == "country"
    ensures InfoKey(Fields(c)[12].name, "company") == "zipcode"
  {
    assert Fields(c)[11].name == "company_" + "country";
    CompanyKey("country");
    assert Fields(c)[12].name == "company_" + "zipcode";
    CompanyKey("zipcode");
  }

  /** No field after the legal name has the key "legal_name". */
  lemma LaterKeysDiffer(c: Configuration)
    ensures forall j :: 4 < j < |Fields(c)| ==> InfoKey(Fields(c)[j].name, "company") != "legal_name"
  {
    ContactKeys(c);
    TaxIdentifierKey(c);
    AddressKey(c);
    RegionKeys(c);
    CountryKeys(c);
    forall j | 4 < j < |Fields(c)|
      ensures InfoKey(Fields(c)[j].name, "company") != "legal_name"
    {
      assert j in {5, 6, 7, 8, 9, 10, 11, 12};
    }
  }

  /** The lookup of `CompanyLegalName` over any fields laid out like a
      configuration's; kept apart so the concrete field list is not unfolded. */
  lemma LegalNameFound(fs: seq<Field>, v: FieldValue)
    requires |fs| == 13 && Selected(fs[4], "company") && InfoKey(fs[4].name, "company") == "legal_name"
    requires fs[4].value == v
    requires forall j :: 4 < j < |fs| ==> InfoKey(fs[j].name, "company") != "legal_name"
    ensures "legal_name" in CollectInfo(fs, "company")
    ensures CollectInfo(fs, "company")["legal_name"] == v
  {
    CollectInfoValue(fs, "company", 4, "legal_name");
  }

  /** With prefix "company" the legal name is found under "legal_name". */
  lemma CompanyLegalName(c: Configuration)
    ensures "legal_name" in GetInfo(c, "company")
    ensures GetInfo(c, "company")["legal_name"] == TextValue(c.companyLegalName)
  {
    LegalNameKey(c);
    LaterKeysDiffer(c);
    LegalNameFound(Fields(c), TextValue(c.companyLegalName));
  }

  /** Where `os.path.join` would put the logo: the media root and the file name. */
  datatype LogoPath = LogoPath(mediaRoot: string, fileName: string)

  /** `Configuration.get_company_logo_path`: None exactly when no logo is set
      (a file field with no name is falsy). */
  function CompanyLogoPath(c: Configuration, mediaRoot: string): (r: Option<LogoPath>)
    ensures r.None? <==> c.companyLogo.None? || c.companyLogo.value == ""
    ensures r.Some? ==> r.value == LogoPath(mediaRoot, c.companyLogo.value)
  {
    match c.companyLogo
    case Some(name) => if name != "" then Some(LogoPath(mediaRoot, name)) else None
    case None => None
  }
}
