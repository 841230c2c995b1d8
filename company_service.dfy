/** The company service: the company form's check and clean-up, and the
    order in which creating, updating and removing a company touch the logo
    files and the company table. The store is not modelled: what it returns
    is passed in, and what the service asks of it is returned. */
module CompanyService {
  import opened Common
  import opened MediaService

  /** The company form. `logoPath` is whatever the caller put there;
      `isFavorite` is the form's flag, absent when the caller leaves it out. */
  datatype CompanyInput = CompanyInput(
    name: Option<string>,
    homePage: Option<string>,
    careerPage: Option<string>,
    notes: Option<string>,
    logoPath: Option<string>,
    isFavorite: Option<bool>)

  /** The company record handed to the store. */
  datatype CompanyRecord = CompanyRecord(
    name: string,
    homePage: Option<string>,
    careerPage: Option<string>,
    notes: Option<string>,
    logoPath: Option<string>,
    isFavorite: Option<bool>)

  /** What the store holds of an existing company that matters here. */
  datatype StoredCompany = StoredCompany(logoPath: Option<string>)

  /** `validateAndSanitizeNewCompanyInput`: a name is required; it is
      trimmed, and blank optional fields become null. */
  function ValidateAndSanitizeCompany(input: CompanyInput): (r: Result<CompanyRecord>)
    ensures r.Err? <==> !Present(input.name)
    ensures r.Err? ==> r.failure == Thrown("Company name is required")
    ensures r.Ok? ==>
      r.value.name == Trim(input.name.value)
      && r.value.homePage == TrimOrNull(input.homePage)
      && r.value.careerPage == TrimOrNull(input.careerPage)
      && r.value.notes == TrimOrNull(input.notes)
      && r.value.logoPath == input.logoPath
      && r.value.isFavorite == input.isFavorite
  {
    if !Present(input.name) then Err(Thrown("Company name is required"))
    else
      Ok(CompanyRecord(Trim(input.name.value), TrimOrNull(input.homePage),
                       TrimOrNull(input.careerPage), TrimOrNull(input.notes), input.logoPath,
                       input.isFavorite))
  }

  function AsCompanyInput(c: CompanyRecord): CompanyInput {
    CompanyInput(Some(c.name), c.homePage, c.careerPage, c.notes, c.logoPath, c.isFavorite)
  }

  /** Sanitizing a sanitized company with a non-blank name changes nothing. */
  lemma SanitizeCompanyIdempotent(input: CompanyInput)
    requires ValidateAndSanitizeCompany(input).Ok?
    requires ValidateAndSanitizeCompany(input).value.name != ""
    ensures var c := ValidateAndSanitizeCompany(input).value;
      ValidateAndSanitizeCompany(AsCompanyInput(c)) == Ok(c)
  {
    TrimIdempotent(input.name.value);
    TrimOrNullIdempotent(input.homePage);
    TrimOrNullIdempotent(input.careerPage);
    TrimOrNullIdempotent(input.notes);
  }

  /** A name of blanks passes validation and is stored empty. */
  lemma BlankCompanyNameAccepted(input: CompanyInput)
    requires input.name == Some("  ")
    ensures ValidateAndSanitizeCompany(input).Ok?
    ensures ValidateAndSanitizeCompany(input).value.name == ""
  {
    assert AllWhitespace("  ");
  }

  /** `createNewCompany` up to the insert: the record inserted. A logo is
      saved only when one is given, and then its path replaces `logoPath`;
      a rejected logo stops the creation. */
  function CreateNewCompany(input: CompanyInput, logo: Option<string>,
                            saveLogo: (string, string) -> string): (r: Result<CompanyRecord>)
    ensures !Present(input.name) ==> r == Err(Thrown("Company name is required"))
    ensures Present(input.name) && Present(logo) && AddLogo(logo.value, saveLogo).Err? ==>
      r == Err(AddLogo(logo.value, saveLogo).failure)
    ensures r.Ok? <==>
      Present(input.name) && (!Present(logo) || AddLogo(logo.value, saveLogo).Ok?)
    ensures r.Ok? ==>
      var c := ValidateAndSanitizeCompany(input).value;
      r.value.name == c.name && r.value.homePage == c.homePage
      && r.value.careerPage == c.careerPage && r.value.notes == c.notes
      && r.value.isFavorite == input.isFavorite
      && (Present(logo) ==> r.value.logoPath == Some(AddLogo(logo.value, saveLogo).value))
      && (!Present(logo) ==> r.value.logoPath == input.logoPath)
  {
    var v := ValidateAndSanitizeCompany(input);
    if v.Err? then Err(v.failure)
    else if !Present(logo) then v
    else
      var path := AddLogo(logo.value, saveLogo);
      if path.Err? then Err(path.failure)
      else Ok(v.value.(logoPath := Some(path.value)))
  }

  /** What an update asks of the store: the logo file it deletes, if any,
      and the record it writes, or why it stopped. */
  datatype CompanyUpdate = CompanyUpdate(deletedMedia: Option<string>,
                                         written: Result<CompanyRecord>)

  /** The `logoPath` an update with `hasLogoChanged` writes: null without
      a logo, the saved path with one, or why the logo was refused. */
  function ChangedLogoPath(logo: Option<string>, saveLogo: (string, string) -> string)
    : (r: Result<Option<string>>)
    ensures !Present(logo) ==> r == Ok(None)
    ensures Present(logo) ==>
      (r.Ok? <==> AddLogo(logo.value, saveLogo).Ok?)
      && (r.Ok? ==> r.value == Some(AddLogo(logo.value, saveLogo).value))
      && (r.Err? ==> r.failure == AddLogo(logo.value, saveLogo).failure)
  {
    if !Present(logo) then Ok(None)
    else
      var path := AddLogo(logo.value, saveLogo);
      if path.Err? then Err(path.failure) else Ok(Some(path.value))
  }

  /** `updateCompany`: a falsy id fails first, then the form check. With
      `hasLogoChanged` the old company is read, its logo file deleted when it
      has one, and `logoPath` becomes the new logo's path or null; without
      the flag `logoPath` stays as given. A missing old company fails on
      reading its `logoPath`. */
  function UpdateCompany(id: Option<string>, input: CompanyInput, hasLogoChanged: bool,
                         logo: Option<string>, oldCompany: Option<StoredCompany>,
                         saveLogo: (string, string) -> string): (r: CompanyUpdate)
    ensures !Present(id) ==> r == CompanyUpdate(None, Err(Thrown("Company id is required")))
    ensures Present(id) && !Present(input.name) ==>
      r == CompanyUpdate(None, Err(Thrown("Company name is required")))
    ensures r.deletedMedia.Some? <==>
      Present(id) && Present(input.name) && hasLogoChanged
      && oldCompany.Some? && Present(oldCompany.value.logoPath)
    ensures r.deletedMedia.Some? ==> r.deletedMedia == oldCompany.value.logoPath
    ensures r.written.Ok? ==>
      var c := ValidateAndSanitizeCompany(input).value;
      Present(id) && Present(input.name)
      && r.written.value.name == c.name && r.written.value.homePage == c.homePage
      && r.written.value.careerPage == c.careerPage && r.written.value.notes == c.notes
      && r.written.value.isFavorite == input.isFavorite
      && (!hasLogoChanged ==> r.written.value.logoPath == input.logoPath)
      && (hasLogoChanged ==> Ok(r.written.value.logoPath) == ChangedLogoPath(logo, saveLogo))
    ensures Present(id) && Present(input.name) && !hasLogoChanged ==> r.written.Ok?
    ensures Present(id) && Present(input.name) && hasLogoChanged && oldCompany.None? ==>
      r.written == Err(TypeError("logoPath"))
    ensures Present(id) && Present(input.name) && hasLogoChanged && oldCompany.Some? ==>
      (r.written.Err? <==> ChangedLogoPath(logo, saveLogo).Err?)
  {
    if !Present(id) then CompanyUpdate(None, Err(Thrown("Company id is required")))
    else
      var v := ValidateAndSanitizeCompany(input);
      if v.Err? then CompanyUpdate(None, Err(v.failure))
      else if !hasLogoChanged then CompanyUpdate(None, v)
      else if oldCompany.None? then CompanyUpdate(None, Err(TypeError("logoPath")))
      else
        var deleted := if Present(oldCompany.value.logoPath) then oldCompany.value.logoPath else None;
        var path := ChangedLogoPath(logo, saveLogo);
        if path.Err? then CompanyUpdate(deleted, Err(path.failure))
        else CompanyUpdate(deleted, Ok(v.value.(logoPath := path.value)))
  }

  /** The old logo file goes even when the new logo is rejected and the row
      is left as it was. */
  lemma OldLogoDeletedBeforeNewLogoChecked(id: string, input: CompanyInput, oldPath: string,
                                          saveLogo: (string, string) -> string)
    requires id != "" && Present(input.name) && oldPath != ""
    ensures var r := UpdateCompany(Some(id), input, true, Some("not an image"),
                                   Some(StoredCompany(Some(oldPath))), saveLogo);
      r.deletedMedia == Some(oldPath) && r.written == Err(Rejected("Invalid base64 string"))
  {
    assert "not an image"[..|DataPrefix|][0] != DataPrefix[0];
  }

  /** Changing the logo to none deletes the old file and clears the path. */
  lemma LogoRemovedOnUpdate(id: string, input: CompanyInput, oldPath: string,
                            saveLogo: (string, string) -> string)
    requires id != "" && Present(input.name) && oldPath != ""
    ensures var r := UpdateCompany(Some(id), input, true, None,
                                   Some(StoredCompany(Some(oldPath))), saveLogo);
      r.deletedMedia == Some(oldPath) && r.written.Ok? && r.written.value.logoPath.None?
  {
  }

  /** A step `removeCompany` asks of the store. `deleteCompany` is a soft
      delete: it marks the row deleted and clears its logo path. */
  datatype RemovalStep = DeleteMedia(path: string) | SoftDeleteCompanyRow(id: string)

  /** `removeCompany`: a missing company is logged and nothing is deleted;
      otherwise its logo file, when it has one, is deleted before the company
      row, and a failing file deletion stops before the row. Whatever
      happens the id is the result. */
  function RemoveCompany(id: string, company: Option<StoredCompany>, deleteMediaFails: bool)
    : (r: (seq<RemovalStep>, string))
    ensures r.1 == id
    ensures SoftDeleteCompanyRow(id) in r.0 <==>
      company.Some? && !(Present(company.value.logoPath) && deleteMediaFails)
    ensures forall p :: DeleteMedia(p) in r.0 <==>
      company.Some? && Present(company.value.logoPath) && p == company.value.logoPath.value
    ensures forall i, j ::
              (0 <= i < |r.0| && 0 <= j < |r.0| && r.0[i].DeleteMedia? && r.0[j].SoftDeleteCompanyRow?)
              ==> i < j
    ensures forall step :: step in r.0 ==> step.SoftDeleteCompanyRow? ==> step.id == id
  {
    if company.None? then ([], id)
    else if !Present(company.value.logoPath) then ([SoftDeleteCompanyRow(id)], id)
    else if deleteMediaFails then ([DeleteMedia(company.value.logoPath.value)], id)
    else ([DeleteMedia(company.value.logoPath.value), SoftDeleteCompanyRow(id)], id)
  }
}
