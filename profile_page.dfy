/** The profile page: the form filled from /api/auth/me, the checks on chosen files, and the
    state after a save. */
module ProfilePage {
  import opened Wrappers
  import opened Http
  import opened MeRoute
  import Landing

  /** A file picked in the browser: only the size and MIME type are inspected. */
  datatype File = File(name: string, size: nat, mimeType: string)

  /** The 10 MB upload limit, in bytes. */
  const MaxUpload: nat := 10 * 1024 * 1024

  const PhotoTooLarge := "Profile photo must be less than 10MB"
  const ResumeTooLarge := "Resume file must be less than 10MB"
  const ResumeNotPdf := "Please upload a PDF file"

  /** `handlePhotoUpload`'s check: only the size is limited. */
  function PhotoProblem(f: File): (r: Option<string>)
    ensures r.Some? <==> f.size > MaxUpload
    ensures r.Some? ==> r.value == PhotoTooLarge
  {
    if f.size > MaxUpload then Some(PhotoTooLarge) else None
  }

  /** `handleResumeUpload`'s checks: the size first, then the type, so an oversized file of any
      type reports its size. */
  function ResumeProblem(f: File): (r: Option<string>)
    ensures r.None? <==> f.size <= MaxUpload && f.mimeType == "application/pdf"
    ensures f.size > MaxUpload ==> r == Some(ResumeTooLarge)
    ensures f.size <= MaxUpload && f.mimeType != "application/pdf" ==> r == Some(ResumeNotPdf)
  {
    if f.size > MaxUpload then Some(ResumeTooLarge)
    else if f.mimeType != "application/pdf" then Some(ResumeNotPdf)
    else None
  }

  /** The editable fields of the form. */
  datatype FormFields = FormFields(
    firstName: string, lastName: string, middleName: string, phone: string,
    premiseName: string, streetName: string, barangayName: string, cityName: string,
    nationality: string)

  /** The form as the page fills it from the signed-in user: each missing or empty field becomes
      "", except the nationality, which becomes "Filipino". /api/auth/me sends no phone, so the
      phone field always starts empty. */
  function InitialForm(m: Me): (f: FormFields)
    ensures f.nationality != "" && f.phone == ""
    ensures Truthy(m.nationality) ==> f.nationality == m.nationality.value
    ensures !Truthy(m.nationality) ==> f.nationality == "Filipino"
    ensures Truthy(m.firstName) <==> f.firstName != ""
    ensures Truthy(m.firstName) ==> f.firstName == m.firstName.value
    ensures Truthy(m.lastName) <==> f.lastName != ""
    ensures Truthy(m.lastName) ==> f.lastName == m.lastName.value
    ensures Truthy(m.middleName) <==> f.middleName != ""
    ensures Truthy(m.middleName) ==> f.middleName == m.middleName.value
    ensures Truthy(m.address.premise) <==> f.premiseName != ""
    ensures Truthy(m.address.premise) ==> f.premiseName == m.address.premise.value
    ensures Truthy(m.address.street) <==> f.streetName != ""
    ensures Truthy(m.address.street) ==> f.streetName == m.address.street.value
    ensures Truthy(m.address.barangay) <==> f.barangayName != ""
    ensures Truthy(m.address.barangay) ==> f.barangayName == m.address.barangay.value
    ensures Truthy(m.address.city) <==> f.cityName != ""
    ensures Truthy(m.address.city) ==> f.cityName == m.address.city.value
  {
    FormFields(OrDefault(m.firstName, ""), OrDefault(m.lastName, ""), OrDefault(m.middleName, ""),
               OrDefault(None, ""), OrDefault(m.address.premise, ""), OrDefault(m.address.street, ""),
               OrDefault(m.address.barangay, ""), OrDefault(m.address.city, ""),
               OrDefault(m.nationality, "Filipino"))
  }

  function AnyUser(m: Me): bool { true }

  class ProfileView {
    var user: Option<Me>
    var isLoading: bool
    var isEditing: bool
    var form: Option<FormFields>
    var profilePhoto: Option<File>
    var previewPhotoUrl: Option<string>
    var resume: Option<File>
    var error: string
    var success: string

    constructor()
      ensures user.None? && isLoading && !isEditing && form.None?
      ensures profilePhoto.None? && previewPhotoUrl.None? && resume.None?
      ensures error == "" && success == ""
    {
      user := None;
      isLoading := true;
      isEditing := false;
      form := None;
      profilePhoto := None;
      previewPhotoUrl := None;
      resume := None;
      error := "";
      success := "";
    }

    /** `checkAuth`: without a stored token the page goes to /Login at once (and stays loading);
        otherwise it asks /api/auth/me, fills the form on success and goes to /Login on failure. */
    method CheckAuth(token: Option<string>, me: Response<Me>) returns (route: Landing.Route)
      modifies this
      ensures route == Landing.Guard(token, me, AnyUser, "/Login")
      ensures route == Landing.ToLogin <==> token.None? || me.Fail?
      ensures route == Landing.Show ==> user == Some(me.body) && form == Some(InitialForm(me.body))
      ensures route != Landing.Show ==> user == old(user) && form == old(form)
      ensures isLoading == (token.None? && old(isLoading))
      ensures isEditing == old(isEditing) && profilePhoto == old(profilePhoto)
      ensures previewPhotoUrl == old(previewPhotoUrl) && resume == old(resume)
      ensures error == old(error) && success == old(success)
    {
      if token.None? {
        return Landing.ToLogin;
      }
      if me.Success? {
        user := Some(me.body);
        form := Some(InitialForm(me.body));
        route := Landing.Show;
      } else {
        route := Landing.ToLogin;
      }
      isLoading := false;
    }

    /** `handlePhotoUpload`: an oversized photo only sets the error; an accepted one is kept
        together with its preview URL (`url`, what URL.createObjectURL returns). */
    method PhotoUpload(file: Option<File>, url: string)
      modifies this
      ensures file.None? ==> profilePhoto == old(profilePhoto) && previewPhotoUrl == old(previewPhotoUrl) && error == old(error)
      ensures file.Some? && PhotoProblem(file.value).Some? ==>
        error == PhotoTooLarge && profilePhoto == old(profilePhoto) && previewPhotoUrl == old(previewPhotoUrl)
      ensures file.Some? && PhotoProblem(file.value).None? ==>
        profilePhoto == file && previewPhotoUrl == Some(url) && error == old(error)
      ensures user == old(user) && isLoading == old(isLoading) && isEditing == old(isEditing)
      ensures form == old(form) && resume == old(resume) && success == old(success)
    {
      if file.Some? {
        var problem := PhotoProblem(file.value);
        if problem.Some? {
          error := problem.value;
          return;
        }
        profilePhoto := file;
        previewPhotoUrl := Some(url);
      }
    }

    /** `handleResumeUpload`: a rejected file only sets the error; an accepted one is kept. */
    method ResumeUpload(file: Option<File>)
      modifies this
      ensures file.None? ==> resume == old(resume) && error == old(error)
      ensures file.Some? && ResumeProblem(file.value).Some? ==>
        error == ResumeProblem(file.value).value && resume == old(resume)
      ensures file.Some? && ResumeProblem(file.value).None? ==> resume == file && error == old(error)
      ensures user == old(user) && isLoading == old(isLoading) && isEditing == old(isEditing)
      ensures form == old(form) && profilePhoto == old(profilePhoto)
      ensures previewPhotoUrl == old(previewPhotoUrl) && success == old(success)
    {
      if file.Some? {
        var problem := ResumeProblem(file.value);
        if problem.Some? {
          error := problem.value;
          return;
        }
        resume := file;
      }
    }

    /** `handleSaveProfile` once /api/profile/update has answered (`None`: the request threw).
        Success leaves edit mode, drops the pending photo, preview and resume, and takes the
        refreshed user when /api/auth/me answers (`refreshed` is `None` when that re-fetch
        throws, which the same catch reports as a network error); failure reports the route's
        error. */
    method FinishSave(response: Option<Response<string>>, refreshed: Option<Response<Me>>)
      modifies this
      ensures !isLoading
      ensures response.Some? && response.value.Success? ==>
        && success == "Profile updated successfully"
        && !isEditing && profilePhoto.None? && previewPhotoUrl.None? && resume.None?
        && error == (if refreshed.None? then "Network error. Please try again." else "")
        && user == (if refreshed.Some? && refreshed.value.Success? then Some(refreshed.value.body) else old(user))
      ensures response.Some? && response.value.Fail? ==>
        error == OrDefault(Some(response.value.error), "Failed to update profile")
      ensures response.None? ==> error == "Network error. Please try again."
      ensures (response.None? || response.value.Fail?) ==>
        && success == "" && isEditing == old(isEditing) && user == old(user)
        && profilePhoto == old(profilePhoto) && previewPhotoUrl == old(previewPhotoUrl) && resume == old(resume)
      ensures form == old(form)
    {
      isLoading := true;
      error := "";
      success := "";
      match response {
        case None =>
          error := "Network error. Please try again.";
        case Some(Fail(_, message)) =>
          error := OrDefault(Some(message), "Failed to update profile");
        case Some(Success(_, _)) =>
          success := "Profile updated successfully";
          isEditing := false;
          profilePhoto := None;
          previewPhotoUrl := None;
          resume := None;
          match refreshed {
            case None =>
              error := "Network error. Please try again.";
            case Some(Fail(_, _)) =>
            case Some(Success(_, me)) =>
              user := Some(me);
          }
      }
      isLoading := false;
    }
  }
}
