/**
 * The validation and shaping rules of apps/movies_api/serializers.py: the
 * rating score validator, the text fields the rating and playlist
 * serializers derive from the models, the registration serializer's password
 * checks and its `create`, and the `release_year` method field.
 */
module Serializers {
  import opened Wrappers
  import opened Text
  import opened Models

  // ---------------------------------------------------------------------------
  // RatingSerializer.validate_score
  // ---------------------------------------------------------------------------

  datatype ValidationError =
    | ScoreNotInRange
    | FieldRequired(field: string)    // "This field is required."
    | FieldBlank(field: string)       // "This field may not be blank."
    | TooShort(field: string)         // fewer than `min_length` characters
    | TooLong(field: string)          // more than `max_length` characters
    | PasswordsDoNotMatch

  /** A score below 1 or above 5 is refused; any other is returned as it is. */
  function ValidateScore(value: int): (r: Result<int, ValidationError>)
    ensures r.Ok? <==> 1 <= value <= 5
    ensures r.Ok? ==> r.value == value
    ensures r.Err? ==> r.error == ScoreNotInRange
  {
    if value < 1 || value > 5 then Err(ScoreNotInRange) else Ok(value)
  }

  /** The serializer accepts exactly the scores the model's validators accept. */
  lemma ValidateScoreMatchesModel(value: int)
    ensures ValidateScore(value).Ok? <==> ScoreInRange(value)
  {
  }

  // ---------------------------------------------------------------------------
  // Text fields derived from model fields (RatingSerializer, PlaylistSerializer)
  // ---------------------------------------------------------------------------

  /**
   * The `CharField` a ModelSerializer builds for a model's text field:
   * `blank=True` makes it optional and lets it be blank, `max_length` is
   * carried over, and `trim_whitespace` is on.
   */
  datatype TextField = TextField(name: string, blank: bool, maxLength: nat)

  /** `Rating.review`: `TextField(blank=True, max_length=1000)`. */
  const ReviewField := TextField("review", true, 1000)

  /** `Playlist.name`: `CharField(max_length=200)`. */
  const PlaylistNameField := TextField("name", false, 200)

  /** `Playlist.description`: `TextField(blank=True, max_length=500)`. */
  const DescriptionField := TextField("description", true, 500)

  /**
   * One such field of a full update. An absent value is refused when the
   * field is required and otherwise leaves the stored value alone (`None`).
   * A blank value (empty once stripped) is refused unless the field may be
   * blank, and is then `""`. Any other value is stripped, and its length
   * is checked against `max_length`.
   */
  function CleanText(f: TextField, value: Option<string>): (r: Result<Option<string>, ValidationError>)
    ensures r.Ok? <==>
      if value.None? then f.blank
      else (Strip(value.value) != "" || f.blank) && |Strip(value.value)| <= f.maxLength
    ensures r.Ok? ==> (r.value.Some? <==> value.Some?)
    ensures r.Ok? && value.Some? ==> r.value.value == Strip(value.value)
    ensures value.None? && !f.blank ==> r == Err(FieldRequired(f.name))
    ensures value.Some? && AllSpace(value.value) && !f.blank ==> r == Err(FieldBlank(f.name))
    ensures value.Some? && |Strip(value.value)| > f.maxLength ==> r == Err(TooLong(f.name))
  {
    match value
    case None => if f.blank then Ok(None) else Err(FieldRequired(f.name))
    case Some(v) =>
      var t := Strip(v);
      if t == "" then (if f.blank then Ok(Some("")) else Err(FieldBlank(f.name)))
      else if |t| > f.maxLength then Err(TooLong(f.name))
      else Ok(Some(t))
  }

  /** Whitespace around a sent value never changes what the field makes of it. */
  lemma CleanTextPadding(f: TextField, v: string, pre: string, post: string)
    requires AllSpace(pre) && AllSpace(post)
    ensures CleanText(f, Some(pre + v + post)) == CleanText(f, Some(v))
  {
    StripPadded(pre, v, post);
  }

  /** Sending back a cleaned value is accepted and leaves it as it is. */
  lemma CleanTextIdempotent(f: TextField, value: Option<string>)
    requires CleanText(f, value).Ok? && CleanText(f, value).value.Some?
    ensures CleanText(f, CleanText(f, value).value) == CleanText(f, value)
  {
    StripIdempotent(value.value);
  }

  // ---------------------------------------------------------------------------
  // UserRegistrationSerializer
  // ---------------------------------------------------------------------------

  const MinPasswordLength := 8

  /** The fields the registration serializer declares (`Meta.fields`). */
  const RegistrationFields: set<string> := {"username", "email", "password", "password_confirm", "first_name", "last_name"}

  /**
   * A required `CharField` (`allow_blank=False`, `trim_whitespace=True`):
   * absent is refused, then blank after stripping, then shorter than
   * `minLength` after stripping; the stripped text is the field's value.
   */
  function CleanCharField(data: map<string, string>, field: string, minLength: nat): (r: Result<string, ValidationError>)
    ensures r.Ok? <==> field in data && Strip(data[field]) != "" && |Strip(data[field])| >= minLength
    ensures r.Ok? ==> r.value == Strip(data[field])
    ensures field !in data ==> r == Err(FieldRequired(field))
    ensures field in data && AllSpace(data[field]) ==> r == Err(FieldBlank(field))
  {
    if field !in data then Err(FieldRequired(field))
    else
      var value := Strip(data[field]);
      if value == "" then Err(FieldBlank(field))
      else if |value| < minLength then Err(TooShort(field))
      else Ok(value)
  }

  function ErrorsOf(r: Result<string, ValidationError>): seq<ValidationError> {
    if r.Err? then [r.error] else []
  }

  /**
   * The errors of field validation, in field order: `username` (required by
   * the `User` model), then `password` and `password_confirm` (min_length 8).
   * Every field is checked; all their errors are reported together.
   */
  function FieldErrors(data: map<string, string>): (r: seq<ValidationError>)
    ensures r == [] <==>
      && "username" in data && Strip(data["username"]) != ""
      && "password" in data && |Strip(data["password"])| >= MinPasswordLength
      && "password_confirm" in data && |Strip(data["password_confirm"])| >= MinPasswordLength
  {
    ErrorsOf(CleanCharField(data, "username", 0))
      + ErrorsOf(CleanCharField(data, "password", MinPasswordLength))
      + ErrorsOf(CleanCharField(data, "password_confirm", MinPasswordLength))
  }

  /** `validated_data`: the declared fields that were sent, each stripped. */
  function Cleaned(data: map<string, string>): (r: map<string, string>)
    ensures r.Keys == data.Keys * RegistrationFields
    ensures forall k | k in r :: r[k] == Strip(data[k])
  {
    map k | k in data.Keys * RegistrationFields :: Strip(data[k])
  }

  /**
   * `is_valid()`: field validation first; only when every field passes,
   * `validate` compares the stripped passwords. The validated data is the
   * stripped values of the declared fields.
   */
  function ValidateRegistration(data: map<string, string>): (r: Result<map<string, string>, seq<ValidationError>>)
    ensures r.Ok? <==>
      && "username" in data && Strip(data["username"]) != ""
      && "password" in data && "password_confirm" in data
      && |Strip(data["password"])| >= MinPasswordLength
      && Strip(data["password"]) == Strip(data["password_confirm"])
    ensures r.Ok? ==> r.value.Keys == data.Keys * RegistrationFields
    ensures r.Ok? ==> forall k | k in r.value :: r.value[k] == Strip(data[k])
    ensures r.Err? ==> r.error != []
    ensures r.Err? && FieldErrors(data) != [] ==> r.error == FieldErrors(data)
  {
    var errors := FieldErrors(data);
    if errors != [] then Err(errors)
    else
      var validated := Cleaned(data);
      if validated["password"] != validated["password_confirm"] then Err([PasswordsDoNotMatch]) else Ok(validated)
  }

  /**
   * Passwords that still differ once stripped are refused, as a mismatch
   * when every field passed on its own.
   */
  lemma MismatchRefused(data: map<string, string>)
    requires "password" in data && "password_confirm" in data
    requires Strip(data["password"]) != Strip(data["password_confirm"])
    ensures ValidateRegistration(data).Err?
    ensures FieldErrors(data) == [] ==> ValidateRegistration(data).error == [PasswordsDoNotMatch]
  {
  }

  /** Passwords that differ only in surrounding whitespace are the same password. */
  lemma SurroundingWhitespaceIgnored(data: map<string, string>, pre: string, post: string)
    requires "username" in data && Strip(data["username"]) != ""
    requires "password" in data && "password_confirm" in data
    requires |data["password"]| >= MinPasswordLength
    requires data["password"] == Strip(data["password"])
    requires AllSpace(pre) && AllSpace(post)
    requires data["password_confirm"] == pre + data["password"] + post
    ensures ValidateRegistration(data).Ok?
    ensures ValidateRegistration(data).value["password_confirm"] == data["password"]
  {
    StripSurrounded(pre, data["password"], post);
  }

  /** Two submissions with the same fields and the same stripped values. */
  ghost predicate SameStripped(d1: map<string, string>, d2: map<string, string>) {
    d1.Keys == d2.Keys && forall k | k in d1 :: Strip(d1[k]) == Strip(d2[k])
  }

  lemma CleanSame(d1: map<string, string>, d2: map<string, string>, field: string, minLength: nat)
    requires SameStripped(d1, d2)
    ensures CleanCharField(d1, field, minLength) == CleanCharField(d2, field, minLength)
  {
  }

  /** Validation sees only the stripped values. */
  lemma StrippedDecides(d1: map<string, string>, d2: map<string, string>)
    requires SameStripped(d1, d2)
    ensures ValidateRegistration(d1) == ValidateRegistration(d2)
  {
    CleanSame(d1, d2, "username", 0);
    CleanSame(d1, d2, "password", MinPasswordLength);
    CleanSame(d1, d2, "password_confirm", MinPasswordLength);
    assert FieldErrors(d1) == FieldErrors(d2);
    assert Cleaned(d1) == Cleaned(d2);
  }

  /** Whitespace added around any field's value never changes the outcome. */
  lemma PaddingIgnored(data: map<string, string>, field: string, pre: string, post: string)
    requires field in data && AllSpace(pre) && AllSpace(post)
    ensures ValidateRegistration(data[field := pre + data[field] + post]) == ValidateRegistration(data)
  {
    StripPadded(pre, data[field], post);
    StrippedDecides(data[field := pre + data[field] + post], data);
  }

  /**
   * A password of whitespace only is reported blank; one that is shorter
   * than eight characters once stripped is reported too short, however much
   * whitespace surrounds it.
   */
  lemma PasswordFieldErrors(data: map<string, string>, field: string)
    requires field == "password" || field == "password_confirm"
    requires field in data
    ensures AllSpace(data[field]) ==> FieldBlank(field) in FieldErrors(data)
    ensures !AllSpace(data[field]) && |Strip(data[field])| < MinPasswordLength ==> TooShort(field) in FieldErrors(data)
    ensures FieldErrors(data) != [] ==> ValidateRegistration(data) == Err(FieldErrors(data))
  {
    var e := CleanCharField(data, field, MinPasswordLength);
    assert e.Err? ==> e.error in ErrorsOf(e);
  }

  /** The arguments `create` hands to `User.objects.create_user`. */
  datatype NewUser = NewUser(username: string, email: string, password: string, firstName: string, lastName: string)

  /** A key the serializer reads with `[]` was absent (KeyError). */
  datatype CreateError = MissingKey(key: string)

  /** `validated_data`, which `create` changes in place. */
  class ValidatedData {
    var fields: map<string, string>

    constructor(fields: map<string, string>)
      ensures this.fields == fields
    {
      this.fields := fields;
    }

    /** `validated_data.get(key, '')`. */
    function GetOrEmpty(key: string): (r: string)
      reads this
      ensures key in fields ==> r == fields[key]
      ensures key !in fields ==> r == ""
    {
      if key in fields then fields[key] else ""
    }
  }

  /**
   * `create`: pop `password_confirm` (a KeyError when absent), then build the
   * user from `username` and `password` (both required) and the optional
   * `email`, `first_name` and `last_name`, which default to ''.
   */
  method Create(v: ValidatedData) returns (r: Result<NewUser, CreateError>)
    modifies v
    ensures "password_confirm" !in old(v.fields) ==> r == Err(MissingKey("password_confirm")) && v.fields == old(v.fields)
    ensures "password_confirm" in old(v.fields) ==> v.fields == old(v.fields) - {"password_confirm"}
    ensures r.Ok? <==> "password_confirm" in old(v.fields) && "username" in old(v.fields) && "password" in old(v.fields)
    ensures r.Ok? ==> r.value == NewUser(old(v.fields)["username"], v.GetOrEmpty("email"), old(v.fields)["password"],
                                         v.GetOrEmpty("first_name"), v.GetOrEmpty("last_name"))
  {
    if "password_confirm" !in v.fields {
      return Err(MissingKey("password_confirm"));
    }
    v.fields := v.fields - {"password_confirm"};
    if "username" !in v.fields {
      return Err(MissingKey("username"));
    }
    if "password" !in v.fields {
      return Err(MissingKey("password"));
    }
    r := Ok(NewUser(v.fields["username"], v.GetOrEmpty("email"), v.fields["password"],
                    v.GetOrEmpty("first_name"), v.GetOrEmpty("last_name")));
  }

  // ---------------------------------------------------------------------------
  // get_release_year (MovieMetadataSerializer and MovieMetadataListSerializer)
  // ---------------------------------------------------------------------------

  /** The release date's year, or None without a release date. */
  function ReleaseYear(m: Movie): (r: Option<int>)
    ensures r.None? <==> m.releaseDate.None?
    ensures r.Some? ==> r.value == m.releaseDate.value.year
  {
    match m.releaseDate
    case Some(d) => Some(d.year)
    case None => None
  }

  /** The year the serializer reports is the one the movie's display string shows. */
  lemma ReleaseYearShownByStr(m: Movie)
    ensures ReleaseYear(m).Some? ==> MovieStr(m) == m.title + " (" + IntToString(ReleaseYear(m).value) + ")"
    ensures ReleaseYear(m).None? ==> MovieStr(m) == m.title + " (N/A)"
  {
  }
}
