/** The upload validators that run after the multipart parser: a MIME-type
    allow-list and a size bound per image, and the rules for which image
    fields must be present. */
module FileValidators {
  import opened Common

  /** One uploaded file as the multipart parser describes it. */
  datatype UploadedFile = UploadedFile(mimetype: string, size: int, path: Option<string>)

  /** The image fields of a multipart request; a field the client did not
      send is absent, a field that was sent holds the parser's array. */
  datatype ImageFields = ImageFields(avatar: Option<seq<UploadedFile>>, coverImage: Option<seq<UploadedFile>>)

  const AllowedImageTypes: seq<string> := ["image/jpeg", "image/png", "image/webp", "image/jpg"]
  const MaxFileSizeMb: int := 5
  const MaxFileSizeBytes: int := MaxFileSizeMb * 1024 * 1024

  /** The independent statement of an acceptable image. */
  predicate Acceptable(f: UploadedFile) {
    f.mimetype in AllowedImageTypes && f.size <= 5242880
  }

  /** `validateFile`: the type is checked first, then the size. */
  function ValidateFile(f: UploadedFile, fieldName: string): (r: Outcome)
    ensures r.Next? <==> Acceptable(f)
    ensures r.Reject? <==> !Acceptable(f)
    ensures f.mimetype !in AllowedImageTypes ==> r == Reject(400, fieldName + " must be a JPG, PNG, or WEBP")
    ensures f.mimetype in AllowedImageTypes && !Acceptable(f) ==> r == Reject(400, fieldName + " must be smaller than 5MB")
  {
    if f.mimetype !in AllowedImageTypes then Reject(400, fieldName + " must be a JPG, PNG, or WEBP")
    else if f.size > MaxFileSizeBytes then Reject(400, fieldName + " must be smaller than 5MB")
    else Next
  }

  /** The size bound is inclusive: 5 MiB passes and one byte more fails. */
  lemma SizeBoundary(mimetype: string, path: Option<string>, fieldName: string)
    requires mimetype in AllowedImageTypes
    ensures ValidateFile(UploadedFile(mimetype, 5242880, path), fieldName) == Next
    ensures ValidateFile(UploadedFile(mimetype, 5242881, path), fieldName).Reject?
  {
  }

  /** A file failing both checks gets the type message. */
  lemma TypeCheckedFirst(f: UploadedFile, fieldName: string)
    requires f.mimetype !in AllowedImageTypes && f.size > MaxFileSizeBytes
    ensures ValidateFile(f, fieldName).message == fieldName + " must be a JPG, PNG, or WEBP"
  {
  }

  /** `field && field[0]?.path`: the field was sent and its first file has a path. */
  predicate HasPath(field: Option<seq<UploadedFile>>) {
    field.Some? && |field.value| > 0 && Truthy(field.value[0].path)
  }

  /** `field?.[0]`: the first file of a field, if any. */
  function FirstFile(field: Option<seq<UploadedFile>>): (r: Option<UploadedFile>)
    ensures r.Some? <==> field.Some? && |field.value| > 0
  {
    if field.Some? && |field.value| > 0 then Some(field.value[0]) else None
  }

  /** Every image sent with a path is acceptable. */
  predicate ImagesAcceptable(fields: ImageFields) {
    && (HasPath(fields.avatar) ==> Acceptable(fields.avatar.value[0]))
    && (HasPath(fields.coverImage) ==> Acceptable(fields.coverImage.value[0]))
  }

  /** `validateRegistrationFiles`: both images are optional; each one that is
      present with a path is validated, the avatar first. Destructuring
      `req.files` fails when the request carried no multipart body. */
  function ValidateRegistrationFiles(files: Option<ImageFields>): (r: Outcome)
    ensures files.None? <==> r.Fault?
    ensures files.Some? ==> (r.Next? <==> ImagesAcceptable(files.value))
    ensures files.Some? && HasPath(files.value.avatar) && !Acceptable(files.value.avatar.value[0]) ==>
      r == ValidateFile(files.value.avatar.value[0], "Avatar")
    ensures files.Some? && r.Reject? && (HasPath(files.value.avatar) ==> Acceptable(files.value.avatar.value[0])) ==>
      r == ValidateFile(files.value.coverImage.value[0], "Cover Image")
  {
    match files
    case None => Fault
    case Some(fields) =>
      if HasPath(fields.avatar) && ValidateFile(fields.avatar.value[0], "Avatar").Reject? then
        ValidateFile(fields.avatar.value[0], "Avatar")
      else if HasPath(fields.coverImage) then
        ValidateFile(fields.coverImage.value[0], "Cover Image")
      else Next
  }

  /** Absent images are never rejected at registration. */
  lemma RegistrationImagesOptional(files: ImageFields)
    requires !HasPath(files.avatar) && !HasPath(files.coverImage)
    ensures ValidateRegistrationFiles(Some(files)) == Next
  {
  }

  /** `validateAvatarFile`: an avatar is required, and then validated. */
  function ValidateAvatarFile(files: Option<ImageFields>): (r: Outcome)
    ensures r.Next? <==> files.Some? && FirstFile(files.value.avatar).Some? && Acceptable(FirstFile(files.value.avatar).value)
    ensures (files.None? || FirstFile(files.value.avatar).None?) ==> r == Reject(400, "Avatar file is required for update")
    ensures files.Some? && FirstFile(files.value.avatar).Some? ==> r == ValidateFile(FirstFile(files.value.avatar).value, "Avatar")
  {
    var avatarFile := if files.Some? then FirstFile(files.value.avatar) else None;
    if avatarFile.None? then Reject(400, "Avatar file is required for update")
    else ValidateFile(avatarFile.value, "Avatar")
  }

  /** `validateCoverImageFile`: a cover image is required, and then validated. */
  function ValidateCoverImageFile(files: Option<ImageFields>): (r: Outcome)
    ensures r.Next? <==> files.Some? && FirstFile(files.value.coverImage).Some? && Acceptable(FirstFile(files.value.coverImage).value)
    ensures (files.None? || FirstFile(files.value.coverImage).None?) ==> r == Reject(400, "Cover Image file is required for update")
    ensures files.Some? && FirstFile(files.value.coverImage).Some? ==> r == ValidateFile(FirstFile(files.value.coverImage).value, "Cover Image")
  {
    var coverImageFile := if files.Some? then FirstFile(files.value.coverImage) else None;
    if coverImageFile.None? then Reject(400, "Cover Image file is required for update")
    else ValidateFile(coverImageFile.value, "Cover Image")
  }
}
