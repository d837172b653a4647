/** The budget app's data models: the two enums, the request validation that runs
    before a handler sees its input (field constraints and the password-strength
    validator), the stored user and transaction records with their defaults, the
    response shapes, and the errors a request can end with. */
module Models {
  import opened Wrappers

  /** A UUID, in the text form it is stored and compared in. */
  type Uuid = string

  /** A datetime, as whole seconds since the epoch (UTC). */
  type Timestamp = int

  // ---------------------------------------------------------------- errors

  /** How a request ends when it does not succeed. */
  datatype ApiError =
    | HttpError(status: int, detail: string)   // an HTTPException raised by a handler
    | Unprocessable(errors: seq<FieldError>)   // 422: the request body failed validation
    | InternalError                            // an exception nobody catches (500)

  /** One failed field constraint of a request body. */
  datatype FieldError =
    | FullNameLength
    | PasswordLength
    | WeakPassword(reason: PasswordError)
    | UnknownType
    | UnknownCategory
    | AmountNotPositive
    | DescriptionTooLong

  // ---------------------------------------------------------------- enums

  datatype TransactionType = Income | Expense

  /** The enum's stored value. */
  function TypeValue(t: TransactionType): string {
    match t
    case Income => "income"
    case Expense => "expense"
  }

  /** `TransactionType(s)`: the member whose value is `s`, if any. */
  function ParseType(s: string): (r: Option<TransactionType>)
    ensures forall t :: r == Some(t) <==> TypeValue(t) == s
  {
    if s == "income" then Some(Income)
    else if s == "expense" then Some(Expense)
    else None
  }

  /** One enum of twelve categories; nothing ties a category to a transaction type. */
  datatype TransactionCategory =
    | Salary | Freelance | Investment | OtherIncome
    | Housing | Transportation | Food | Utilities
    | Healthcare | Entertainment | Shopping | OtherExpense

  function CategoryValue(c: TransactionCategory): string {
    match c
    case Salary => "salary"
    case Freelance => "freelance"
    case Investment => "investment"
    case OtherIncome => "other_income"
    case Housing => "housing"
    case Transportation => "transportation"
    case Food => "food"
    case Utilities => "utilities"
    case Healthcare => "healthcare"
    case Entertainment => "entertainment"
    case Shopping => "shopping"
    case OtherExpense => "other_expense"
  }

  /** `TransactionCategory(s)`: the member whose value is `s`, if any. */
  function ParseCategory(s: string): (r: Option<TransactionCategory>)
    ensures forall c :: r == Some(c) <==> CategoryValue(c) == s
  {
    if s == "salary" then Some(Salary)
    else if s == "freelance" then Some(Freelance)
    else if s == "investment" then Some(Investment)
    else if s == "other_income" then Some(OtherIncome)
    else if s == "housing" then Some(Housing)
    else if s == "transportation" then Some(Transportation)
    else if s == "food" then Some(Food)
    else if s == "utilities" then Some(Utilities)
    else if s == "healthcare" then Some(Healthcare)
    else if s == "entertainment" then Some(Entertainment)
    else if s == "shopping" then Some(Shopping)
    else if s == "other_expense" then Some(OtherExpense)
    else None
  }

  // ---------------------------------------------------------------- password strength

  datatype PasswordError = TooShort | NoUppercase | NoLowercase | NoDigit

  predicate IsUpper(c: char) { 'A' <= c <= 'Z' }
  predicate IsLower(c: char) { 'a' <= c <= 'z' }
  predicate IsDigit(c: char) { '0' <= c <= '9' }

  /** `any(p(c) for c in s)`, scanning from the left. */
  function AnyChar(s: string, p: char -> bool): (r: bool)
    ensures r <==> exists i :: 0 <= i < |s| && p(s[i])
  {
    if s == [] then false
    else if p(s[0]) then true
    else
      var rest := AnyChar(s[1..], p);
      assert forall i :: 0 <= i < |s[1..]| ==> s[1..][i] == s[i + 1];
      rest
  }

  ghost predicate HasUpper(v: string) { exists i :: 0 <= i < |v| && IsUpper(v[i]) }
  ghost predicate HasLower(v: string) { exists i :: 0 <= i < |v| && IsLower(v[i]) }
  ghost predicate HasDigit(v: string) { exists i :: 0 <= i < |v| && IsDigit(v[i]) }

  ghost predicate IsStrongPassword(v: string) {
    |v| >= 8 && HasUpper(v) && HasLower(v) && HasDigit(v)
  }

  /** `UserCreate.validate_password`: the checks run in a fixed order and the first
      one that fails is reported; an accepted password is returned unchanged. */
  function ValidatePassword(v: string): (r: Result<string, PasswordError>)
    ensures r.Ok? <==> IsStrongPassword(v)
    ensures r.Ok? ==> r.value == v
    ensures r == Err(TooShort) <==> |v| < 8
    ensures r == Err(NoUppercase) <==> |v| >= 8 && !HasUpper(v)
    ensures r == Err(NoLowercase) <==> |v| >= 8 && HasUpper(v) && !HasLower(v)
    ensures r == Err(NoDigit) <==> |v| >= 8 && HasUpper(v) && HasLower(v) && !HasDigit(v)
  {
    if |v| < 8 then Err(TooShort)
    else if !AnyChar(v, IsUpper) then Err(NoUppercase)
    else if !AnyChar(v, IsLower) then Err(NoLowercase)
    else if !AnyChar(v, IsDigit) then Err(NoDigit)
    else Ok(v)
  }

  /** The registration the test suite sends with the password "weak" is refused by the
      field's length constraint alone; the validator's own message is not reached. */
  lemma WeakIsRejected()
    ensures ValidatePassword("weak") == Err(TooShort)
    ensures ValidateUserCreate("weak@example.com", "Weak User", "weak") == Err([PasswordLength])
  {
    assert |"Weak User"| == 9 && |"weak"| == 4;
    assert PasswordErrors("weak") == [PasswordLength];
    var noNameError: seq<FieldError> := [];
    assert noNameError + [PasswordLength] == [PasswordLength];
  }

  lemma ValidPass123IsAccepted()
    ensures ValidatePassword("ValidPass123") == Ok("ValidPass123")
  {
    var v := "ValidPass123";
    assert IsUpper(v[0]) && IsLower(v[1]) && IsDigit(v[9]);
  }

  // ---------------------------------------------------------------- registration body

  const FullNameMinLength := 1
  const FullNameMaxLength := 100
  const PasswordMinLength := 8
  const PasswordMaxLength := 100

  /** A registration body that passed validation. */
  datatype UserCreate = UserCreate(email: string, fullName: string, password: string)

  /** The errors of the `password` field: its length constraint first, and the
      strength validator only on a password whose length passed. */
  function PasswordErrors(password: string): seq<FieldError> {
    if !(PasswordMinLength <= |password| <= PasswordMaxLength) then [PasswordLength]
    else match ValidatePassword(password)
      case Ok(_) => []
      case Err(e) => [WeakPassword(e)]
  }

  /** Validation of a `UserCreate` body: every field is checked and every failure
      is reported. The email's format is not part of this model. */
  function ValidateUserCreate(email: string, fullName: string, password: string): (r: Result<UserCreate, seq<FieldError>>)
    ensures r.Ok? <==>
      FullNameMinLength <= |fullName| <= FullNameMaxLength &&
      PasswordMinLength <= |password| <= PasswordMaxLength &&
      IsStrongPassword(password)
    ensures r.Ok? ==> r.value == UserCreate(email, fullName, password)
    ensures r.Err? ==> r.error != []
    ensures r.Err? ==> (FullNameLength in r.error <==> !(FullNameMinLength <= |fullName| <= FullNameMaxLength))
    ensures r.Err? ==> (PasswordLength in r.error <==> !(PasswordMinLength <= |password| <= PasswordMaxLength))
    ensures r.Err? ==> forall e :: WeakPassword(e) in r.error <==>
      PasswordMinLength <= |password| <= PasswordMaxLength && ValidatePassword(password) == Err(e)
  {
    var errors := (if FullNameMinLength <= |fullName| <= FullNameMaxLength then [] else [FullNameLength])
      + PasswordErrors(password);
    if errors == [] then Ok(UserCreate(email, fullName, password)) else Err(errors)
  }

  /** Because the field's own length constraint runs first, the validator's
      "at least 8 characters" message is never what a request gets back. */
  lemma TooShortNeverReported(email: string, fullName: string, password: string)
    ensures ValidateUserCreate(email, fullName, password).Err? ==>
      WeakPassword(TooShort) !in ValidateUserCreate(email, fullName, password).error
  {
  }

  // ---------------------------------------------------------------- transaction body

  const DescriptionMaxLength := 500

  /** A transaction body as it arrives: enum fields as text, optional fields absent. */
  datatype TransactionInput = TransactionInput(
    kind: string,
    category: string,
    amount: real,
    description: Option<string>,
    date: Option<Timestamp>)

  /** A `TransactionCreate` that passed validation, defaults filled in. */
  datatype TransactionCreate = TransactionCreate(
    kind: TransactionType,
    category: TransactionCategory,
    amount: real,
    description: string,
    date: Timestamp)

  function DescriptionOrDefault(input: TransactionInput): string {
    if input.description.Some? then input.description.value else ""
  }

  function DateOrDefault(input: TransactionInput, now: Timestamp): Timestamp {
    if input.date.Some? then input.date.value else now
  }

  /** Validation of a `TransactionCreate` body. The amount must be strictly positive
      and is never clamped; the category is checked against the enum only. */
  function ValidateTransactionCreate(input: TransactionInput, now: Timestamp): (r: Result<TransactionCreate, seq<FieldError>>)
    ensures r.Ok? <==>
      ParseType(input.kind).Some? && ParseCategory(input.category).Some? &&
      input.amount > 0.0 && |DescriptionOrDefault(input)| <= DescriptionMaxLength
    ensures r.Ok? ==>
      TypeValue(r.value.kind) == input.kind && CategoryValue(r.value.category) == input.category &&
      r.value.amount == input.amount && r.value.description == DescriptionOrDefault(input) &&
      r.value.date == DateOrDefault(input, now)
    ensures r.Err? ==> r.error != []
    ensures r.Err? ==> (AmountNotPositive in r.error <==> input.amount <= 0.0)
    ensures r.Err? ==> (UnknownType in r.error <==> ParseType(input.kind).None?)
    ensures r.Err? ==> (UnknownCategory in r.error <==> ParseCategory(input.category).None?)
    ensures r.Err? ==> (DescriptionTooLong in r.error <==> |DescriptionOrDefault(input)| > DescriptionMaxLength)
  {
    var kind := ParseType(input.kind);
    var category := ParseCategory(input.category);
    var description := DescriptionOrDefault(input);
    var errors :=
      (if kind.None? then [UnknownType] else []) +
      (if category.None? then [UnknownCategory] else []) +
      (if input.amount > 0.0 then [] else [AmountNotPositive]) +
      (if |description| <= DescriptionMaxLength then [] else [DescriptionTooLong]);
    if errors == [] then
      Ok(TransactionCreate(kind.value, category.value, input.amount, description, DateOrDefault(input, now)))
    else Err(errors)
  }

  /** An income may carry an expense category: the pairing is not checked. */
  lemma CategoryNotTiedToType(now: Timestamp)
    ensures ValidateTransactionCreate(TransactionInput("income", "food", 10.0, None, None), now).Ok?
  {
    assert ParseType("income") == Some(Income);
    assert ParseCategory("food") == Some(Food);
  }

  // ---------------------------------------------------------------- stored records

  /** `UserInDB`. */
  datatype UserInDB = UserInDB(
    email: string,
    fullName: string,
    hashedPassword: string,
    publicId: Uuid,
    createdAt: Timestamp,
    updatedAt: Timestamp,
    deletedAt: Option<Timestamp>,
    isActive: bool)

  /** A `UserInDB` built from the given fields and the model's defaults. */
  function NewUser(email: string, fullName: string, hashedPassword: string, id: Uuid, now: Timestamp): (u: UserInDB)
    ensures u.deletedAt.None? && u.isActive
    ensures u.createdAt == now && u.updatedAt == now && u.publicId == id
    ensures u.email == email && u.fullName == fullName && u.hashedPassword == hashedPassword
  {
    UserInDB(email, fullName, hashedPassword, id, now, now, None, true)
  }

  /** `TransactionInDB`. */
  datatype TransactionInDB = TransactionInDB(
    kind: TransactionType,
    category: TransactionCategory,
    amount: real,
    description: string,
    date: Timestamp,
    publicId: Uuid,
    userPublicId: Uuid,
    createdAt: Timestamp,
    updatedAt: Timestamp,
    deletedAt: Option<Timestamp>)

  /** A `TransactionInDB` built from a validated body, its owner and the defaults. */
  function NewTransaction(data: TransactionCreate, owner: Uuid, id: Uuid, now: Timestamp): (t: TransactionInDB)
    ensures t.deletedAt.None? && t.userPublicId == owner && t.publicId == id
    ensures t.createdAt == now && t.updatedAt == now
    ensures t.kind == data.kind && t.category == data.category && t.amount == data.amount
    ensures t.description == data.description && t.date == data.date
  {
    TransactionInDB(data.kind, data.category, data.amount, data.description, data.date, id, owner, now, now, None)
  }

  // ---------------------------------------------------------------- responses

  /** `UserResponse`: public data only, no credential. */
  datatype UserResponse = UserResponse(publicId: Uuid, email: string, fullName: string, createdAt: Timestamp)

  function ToUserResponse(u: UserInDB): UserResponse {
    UserResponse(u.publicId, u.email, u.fullName, u.createdAt)
  }

  /** `TransactionResponse`: no owner and no deletion marker. */
  datatype TransactionResponse = TransactionResponse(
    publicId: Uuid,
    kind: TransactionType,
    category: TransactionCategory,
    amount: real,
    description: string,
    date: Timestamp,
    createdAt: Timestamp)

  function ToTransactionResponse(t: TransactionInDB): TransactionResponse {
    TransactionResponse(t.publicId, t.kind, t.category, t.amount, t.description, t.date, t.createdAt)
  }

  datatype BalanceResponse = BalanceResponse(
    totalIncome: real,
    totalExpenses: real,
    currentBalance: real,
    transactionCount: int)

  datatype Token = Token(accessToken: string, tokenType: string)
}
