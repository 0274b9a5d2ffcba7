# ESG KBTU app core, modelled in Dafny

The ESG KBTU iOS app lets students of a university earn points for
environmental, social and governance activities, join events, climb a
leaderboard and spend points in a shop. This project models the parts of
its Swift code that compute something, and it proves what they promise:

- The data records (`User`, `Event`, `EventParticipation`, `ShopItem`,
  `Rating`, `Badge`) with their initializer defaults and raw-value enums.
- The business rules on those records: user level and progress to the next
  level, whether an event is full or joinable, the countdown text before an
  event, whether an item can be bought, and the rank medal.
- The configuration tables and the `Color(hex:)` decoder in `Constants.swift`.
- The input checks in `Validators.swift`, the `String` and `Array`
  extensions in `Extensions.swift`, and the synchronous state changes of
  `AuthViewModel`.
- The error type of `NetworkService`, its status-code classification and its
  error mapping.

Each regular expression is written as the character-level condition a full
match (`SELF MATCHES`) imposes. Dates are whole seconds since the epoch.
The current time, which the source reads with `Date()`, is a parameter
(`now`). The network exchange is also a parameter: whether the URL parses,
and what the data task delivered. Progress is an exact `real`.

Modules, one per source file: `Wrappers` (Option/Result), `Text` (character
classes, trimming, searching, decimal rendering), `Constants`, `Badges`,
`UserModel`, `EventModel`, `EventParticipationModel`, `ShopItemModel`,
`RatingModel`, `Validators`, `Extensions`, `NetworkService`, `ViewModels`.

The records declare fields for scores, streaks, badges and the status of a
participation, but no code in these files updates them. The model keeps
the fields and does not invent the transitions. Two places in the code do
not compile as written:

- `Validators.isValidPassword` and `String.isValidPassword` read
  `AppConfig.minPasswordLength`, but the constant is declared as
  `mainPasswordLegth`. The model reads it as the declared value, 8.
- `Color(hex:)` assigns `UInt64` results to `Int64` components. The model
  keeps the unsigned values, which all fit.

## Model

| member | source | states |
|---|---|---|
| Constants.LevelTablesWellFormed | ESG/Utils/Constants.swift:134-137 | the points table has one more entry than the level names, starts at 0 and is strictly increasing |
| Constants.LevelIndex | ESG/Utils/Constants.swift:136-137 | for a non-negative score, the band of the points table holding it: its lower bound is at most the score and the next bound exceeds it |
| Constants.ScanHexInt | ESG/Utils/Constants.swift:37-38 | the scanner reads the longest hexadecimal prefix, saturating at the largest UInt64 |
| Constants.HexArgb | ESG/Utils/Constants.swift:35-49 | every component is a byte; a trimmed length other than 3, 6 or 8 gives opaque black |
| Constants.ColorFromHex | ESG/Utils/Constants.swift:35-57 | the decoder's components equal the reference decoding `HexArgb` |
| Constants.ThreeDigitHex | ESG/Utils/Constants.swift:41-42 | three hex digits expand each digit d to d*17, fully opaque |
| Constants.SixDigitHex | ESG/Utils/Constants.swift:43-44 | six hex digits are the red, green and blue byte pairs in order, fully opaque |
| Constants.EightDigitHex | ESG/Utils/Constants.swift:45-46 | eight hex digits are alpha, red, green and blue byte pairs in order |
| Constants.PrefixIgnored | ESG/Utils/Constants.swift:36 | non-alphanumeric characters before the digits do not change the colour |
| Constants.HashIgnored | ESG/Utils/Constants.swift:36 | a leading `#` does not change the colour |
| Constants.WhiteFromThreeDigits | ESG/Utils/Constants.swift:41-42 | "FFF" is opaque white |
| Constants.PrimaryGreen | ESG/Utils/Constants.swift:11 | the primary green decodes to 00, B3, 83, fully opaque |
| Constants.WarningColor | ESG/Utils/Constants.swift:28 | the warning colour, written without `#`, decodes to F5, 9E, 0B |
| UserModel.InitDefaults | ESG/Models/User.swift:32-66 | a new user has zero scores and counters, no badges, and the defaults of the initializer |
| UserModel.InitDoesNotEnforceScoreSum | ESG/Models/User.swift:32-66 | the initializer accepts a negative total that differs from the sum of the three category scores |
| UserModel.UserLevel | ESG/Models/User.swift:69-77 | the level name is the name of the points band holding the score; a negative score falls to the default, "Legend" |
| UserModel.Progress | ESG/Models/User.swift:79-89 | within a band, progress is the fraction of the band covered, in [0, 1); from 2000 up it is 1; a negative score gives score/100 |
| UserModel.ProgressToNextLevel | ESG/Models/User.swift:79-89 | the loop over the level table returns exactly `Progress` of the score |
| UserModel.LevelTablesAgree | ESG/Models/User.swift:69-80 | the local level table equals `AppConfig.pointsPerLevel`, and the level switch names agree with `AppConfig.levelNames` |
| UserModel.LegendBeforeFullProgress | ESG/Models/User.swift:69-89 | scores from 1000 to 1999 are already "Legend" while progress is still below 1 |
| UserModel.MockUserScore | ESG/Models/User.swift:69-89 | a score of 450 is "Champion" with progress 0.5 |
| EventModel.CategoryFromRawValue | ESG/Models/Event.swift:10-13 | decoding a raw value yields a category whose raw value it is, and fails only on strings that are no category's raw value |
| EventModel.CategoryRawValueRoundTrip | ESG/Models/Event.swift:10-13 | encoding then decoding a category gives it back |
| EventModel.Color | ESG/Models/Event.swift:15-21 | each category's colour asset is one of the "…Primary" colours |
| EventModel.Icon | ESG/Models/Event.swift:23-29 | each category's icon is the matching `AppIcons` symbol |
| EventModel.TablesInjective | ESG/Models/Event.swift:15-29 | distinct categories have distinct colours and distinct icons |
| EventModel.StatusFromRawValue | ESG/Models/Event.swift:32-37 | decoding a raw status yields one whose raw value it is, and fails only on non-raw strings |
| EventModel.StatusRawValueRoundTrip | ESG/Models/Event.swift:32-37 | encoding then decoding a status gives it back |
| EventModel.InitDefaults | ESG/Models/Event.swift:57-91 | a new event has no cap, no participants, is upcoming, and carries the other initializer defaults |
| EventModel.IsFull | ESG/Models/Event.swift:94-97 | an uncapped event is never full; a capped one is full exactly when participants reach the cap |
| EventModel.FullStaysFull | ESG/Models/Event.swift:94-97 | more participants keep a full event full |
| EventModel.CanJoin | ESG/Models/Event.swift:99-101 | joinable exactly when upcoming, in the future, and uncapped or below the cap |
| EventModel.PastEventsNotJoinable | ESG/Models/Event.swift:99-101 | an event at or before now is never joinable; one joinable now was joinable earlier |
| EventModel.NewEventJoinable | ESG/Models/Event.swift:57-101 | a freshly made event is joinable exactly when it lies in the future and has no cap or a positive one |
| EventModel.TimeUntilEvent | ESG/Models/Event.swift:103-115 | whole days when at least a day away, else whole hours when at least an hour away, else "Starting soon", also for past events |
| EventParticipationModel.ParticipationFromRawValue | ESG/Models/EventParticipation.swift:47-53 | decoding a raw status yields one whose raw value it is, and fails only on non-raw strings |
| EventParticipationModel.ParticipationRawValueRoundTrip | ESG/Models/EventParticipation.swift:47-53 | encoding then decoding a participation status gives it back |
| EventParticipationModel.InitDefaults | ESG/Models/EventParticipation.swift:22-44 | a new participation is registered, with no completion, points, feedback or rating |
| ShopItemModel.CategoryFromRawValue | ESG/Models/ShopItem.swift:52-57 | decoding a raw category yields one whose raw value it is, and fails only on non-raw strings |
| ShopItemModel.CategoryRawValueRoundTrip | ESG/Models/ShopItem.swift:52-57 | encoding then decoding a shop category gives it back |
| ShopItemModel.CanPurchase | ESG/Models/ShopItem.swift:46-48 | purchasable exactly when available, affordable, and with unlimited stock or stock above zero |
| ShopItemModel.PurchaseMonotoneInPoints | ESG/Models/ShopItem.swift:46-48 | more points never make an item unaffordable; exactly its cost suffices |
| ShopItemModel.NewItemPurchasable | ESG/Models/ShopItem.swift:22-48 | a new item with default stock and availability can be bought exactly when the points cover its cost |
| RatingModel.InitDefaults | ESG/Models/Rating.swift:20-38 | a new rating entry carries the initializer defaults |
| RatingModel.RankBadge | ESG/Models/Rating.swift:40-47 | ranks 1, 2 and 3 get the gold, silver and bronze medals; every other rank, zero and negative ones included, gets the empty string |
| RatingModel.MedalsDistinct | ESG/Models/Rating.swift:40-47 | the three podium ranks get three different medals |
| Text.LeadingStripped | ESG/Utils/Validators.swift:25 | the first index from `i` on whose character is not strippable, or the length; everything skipped is strippable |
| Text.TrailingStart | ESG/Utils/Validators.swift:25 | the end of the non-strippable core before `j`, not below `lo`; everything from it to `j` is strippable |
| Text.Trim | ESG/Utils/Validators.swift:25 | the result is the slice of the input between a strippable prefix and a strippable suffix; neither of its ends is strippable, and it is empty exactly when every character is strippable |
| Text.TrimOf | ESG/Utils/Validators.swift:25 | any slice between a strippable prefix and suffix whose own ends are not strippable is the trimmed result, so the trimmed result is unique |
| Text.TrimIgnoresPadding | ESG/Utils/Validators.swift:25 | strippable padding on either side does not change the trimmed result |
| Text.DecimalString | ESG/Services/NetworkService.swift:82-84 | integer interpolation gives a non-empty run of digits without a leading zero |
| Text.DecimalStringInjective | ESG/Models/Event.swift:109-111 | distinct counts render as distinct texts |
| Validators.IsValidEmail | ESG/Utils/Validators.swift:11-15 | a full match of `[A-Z0-9a-z._%+-]+@[A-Za-z0-9.-]+\.[A-Za-z]{2,64}`; every accepted address has at least six characters |
| Validators.AcceptedEmailShape | ESG/Utils/Validators.swift:11-15 | every accepted address has exactly one `@` and ends in a dot and 2 to 64 letters |
| Validators.IsValidPassword | ESG/Utils/Validators.swift:16-22 | valid exactly when at least 8 characters long; the message is present exactly when invalid |
| Validators.PasswordMessageText | ESG/Utils/Validators.swift:18 | the interpolated message reads "Password must be at least 8 characters" |
| Validators.IsValidName | ESG/Utils/Validators.swift:24-36 | valid exactly when the trimmed name has at least two characters; an all-whitespace name gets "Name cannot be empty"; one character gets the short-name message |
| Validators.NamePaddingIrrelevant | ESG/Utils/Validators.swift:24-36 | whitespace around a name never changes the verdict |
| Validators.StudentIdExample | ESG/Utils/Validators.swift:39-43 | the pattern as written rejects its own example "22B030477"; the corrected pattern accepts it |
| Validators.IsValidStudentId | ESG/Utils/Validators.swift:39-43 | a full match of `^\d{2}[A-Z]\d{7}$` as written; every accepted ID is made of ASCII letters and digits |
| Validators.IsValidStudentIdCorrected | ESG/Utils/Validators.swift:39-43 | two digits, an upper-case letter and six digits, the format of the example; accepted IDs are ASCII letters and digits and are never accepted by the pattern as written |
| Validators.StudentIdFormatsDisjoint | ESG/Utils/Validators.swift:39-43 | the pattern as written accepts only 10-character IDs, the corrected one only 9-character IDs |
| Validators.IsValidPhoneNumber | ESG/Utils/Validators.swift:45-49 | accepted exactly when 10 to 15 digits, optionally after one leading `+` |
| Extensions.IsValidEmail | ESG/Utils/Extensions.swift:78-82 | `String.isValidEmail` accepts exactly what `Validators.isValidEmail` accepts |
| Extensions.EmailCheckersAgree | ESG/Utils/Extensions.swift:78-82 | splitting at the first `@` and the last `.` succeeds exactly when some split matches the pattern |
| Extensions.IsValidPassword | ESG/Utils/Extensions.swift:85-87 | agrees with `Validators.isValidPassword` |
| Extensions.Truncated | ESG/Utils/Extensions.swift:90-95 | a string no longer than the limit comes back unchanged; a longer one is its first `length` characters followed by the trailing text |
| Extensions.Uniqued | ESG/Utils/Extensions.swift:190-194 | the filter loop returns the reference result `KeepFirstPerId`, whose identifiers are pairwise distinct |
| Extensions.UniquedDistinct | ESG/Utils/Extensions.swift:190-194 | no two kept elements share an identifier |
| Extensions.UniquedKeepsIds | ESG/Utils/Extensions.swift:190-194 | every identifier of the input survives |
| Extensions.UniquedIsSubsequence | ESG/Utils/Extensions.swift:190-194 | the result keeps the input's order and drops only elements |
| Extensions.UniquedKeepsFirst | ESG/Utils/Extensions.swift:190-194 | each kept element is the first occurrence of its identifier |
| Extensions.UniquedIdentityOnDistinct | ESG/Utils/Extensions.swift:190-194 | an input with distinct identifiers comes back unchanged |
| Extensions.UniquedIdempotent | ESG/Utils/Extensions.swift:190-194 | applying it twice is the same as once |
| NetworkService.Message | ESG/Services/NetworkService.swift:19-28 | a server error's message is its own text; every other case has a non-empty fixed message |
| NetworkService.FixedMessagesDistinct | ESG/Services/NetworkService.swift:19-28 | the fixed messages tell their cases apart |
| NetworkService.CheckStatus | ESG/Services/NetworkService.swift:76-87 | 2xx accepted; 401 exactly unauthorized; other 4xx "Client error: N"; 5xx "Server error: N"; all remaining codes, negative ones included, invalid response |
| NetworkService.MapError | ESG/Services/NetworkService.swift:90-95 | decoder failures become decoding errors, network errors pass through unchanged, anything else becomes a server error with its description |
| NetworkService.RequestResult | ESG/Services/NetworkService.swift:49-95 | a value exactly when the URL parses, the status is 2xx and the body decodes; an unparsable URL is InvalidURL; a rejected status is its classification; no request ever fails with NoInternet |
| ViewModels.LoginEmailPattern | ESG/ViewModels/AuthViewModel.swift:55 | a full match of `[A-Z0-9a-z.%+-]+@[A-Z0-9a-z]+\.[A-Za-z]{2,64}`; every accepted address is accepted by `Validators.isValidEmail` |
| ViewModels.LoginEmailIsValidEmail | ESG/ViewModels/AuthViewModel.swift:54-57 | a match of the view model's pattern is a match of the `Validators.isValidEmail` pattern |
| ViewModels.LoginEmailHasNoUnderscore | ESG/ViewModels/AuthViewModel.swift:55 | an accepted address contains no underscore |
| ViewModels.LoginEmailHasOneDomainDot | ESG/ViewModels/AuthViewModel.swift:55 | after the `@` of an accepted address there is only one dot |
| ViewModels.UnderscoreAddressRejected | ESG/ViewModels/AuthViewModel.swift:55 | "a_b@x.io" is valid for `Validators` but rejected by the view model |
| ViewModels.MockAddressRejected | ESG/Services/UserService.swift:92 | the mock user's address "a_kassiman@kbtu.kz" is valid for `Validators` but rejected by the view model |
| ViewModels.SubdomainAddressRejected | ESG/ViewModels/AuthViewModel.swift:55 | "a@mail.kbtu.kz" is valid for `Validators` but rejected by the view model |
| ViewModels.PasswordRulesAgree | ESG/ViewModels/AuthViewModel.swift:69-80 | the view model's password rule and message coincide with `Validators.isValidPassword` |
| ViewModels.NameRulesDiffer | ESG/ViewModels/AuthViewModel.swift:82-93 | every name `Validators` accepts passes the view model, but two spaces pass the view model and fail `Validators` |
| ViewModels.LoginGuard | ESG/ViewModels/AuthViewModel.swift:102 | the guard of `login`: the email matches the view model's pattern and the password has at least 8 characters; passing it implies both pass `Validators` |
| ViewModels.SignUpGuard | ESG/ViewModels/AuthViewModel.swift:126-129 | the guard of `signUp`: name, email, password and matching confirmation; passing it implies the login guard and that the confirmation passes `Validators.isValidPassword` |
| ViewModels.ErrorFor | ESG/ViewModels/AuthViewModel.swift:59-64 | an error field holds a message exactly when its check failed |
| ViewModels.AuthViewModel.constructor | ESG/ViewModels/AuthViewModel.swift:14-52 | all text fields empty, no messages, not loading, password hidden, and authentication as the service reports it |
| ViewModels.AuthViewModel.ValidateEmail | ESG/ViewModels/AuthViewModel.swift:54-67 | returns the login pattern's verdict and sets `emailError` to the message exactly when it fails; changes nothing else |
| ViewModels.AuthViewModel.ValidatePassword | ESG/ViewModels/AuthViewModel.swift:69-80 | returns count >= 8 and sets `passwordError` to the message exactly when not; changes nothing else |
| ViewModels.AuthViewModel.ValidateName | ESG/ViewModels/AuthViewModel.swift:82-93 | returns count >= 2 without trimming and sets `nameError` to the message exactly when not; changes nothing else |
| ViewModels.AuthViewModel.PasswordsMatch | ESG/ViewModels/AuthViewModel.swift:95-97 | true exactly when the password and its confirmation are equal |
| ViewModels.AuthViewModel.Login | ESG/ViewModels/AuthViewModel.swift:101-108 | the email is checked first and the password only after it passes; a failed guard sets the generic message and leaves loading alone; a passed one starts loading and clears the message |
| ViewModels.AuthViewModel.SignUp | ESG/ViewModels/AuthViewModel.swift:125-135 | name, email, password and confirmation are checked in order, each only after the earlier ones pass; failure and success set the state as for login |
| ViewModels.AuthViewModel.ResetPassword | ESG/ViewModels/AuthViewModel.swift:159-166 | only the login email is checked; failure and success set the state as for login |
| ViewModels.AuthViewModel.ClearFields | ESG/ViewModels/AuthViewModel.swift:192-204 | the seven text fields become empty and the four messages are cleared; nothing else changes |
| ViewModels.AuthViewModel.TogglePasswordVisibility | ESG/ViewModels/AuthViewModel.swift:206-208 | flips `showPassword` and changes nothing else |
| ViewModels.ToggleTwice | ESG/ViewModels/AuthViewModel.swift:206-208 | toggling twice restores the visibility |
| ViewModels.LoginThenClear | ESG/ViewModels/AuthViewModel.swift:101-108 | after a login attempt, clearing the fields removes every message it left and keeps authentication and visibility |

## Left out

- Views (`LoginView`, `SignUpView`, the `View` modifiers in `Extensions.swift`): pure user interface. `SignUpView` also uses members `AuthViewModel` does not declare.
- Asynchronous services (`AuthService`, `EventService`, `UserService`, the publisher chain and `mockRequest` in `NetworkService`): Combine and `URLSession` I/O. Only the classification and error mapping of `request` are modelled, with the exchange's outcome as a parameter. The request headers and auth token are not modelled.
- AuthViewModel.Login: the `sink` callbacks that later clear `isLoading`, set `isAuthenticated` or copy the service's error message are asynchronous and not modelled; the same holds for SignUp and ResetPassword, including the "Check your inbox" message.
- `logout`: it calls the service, which is not part of this model, and then `clearFields`, which is modelled.
- ViewModels.AuthViewModel.constructor: the binding from the service's `isAuthenticated` is modelled only as the initial value it delivers.
- Storage and platform wrappers (`PreferencesManager`, `ContentView`, `ESGApp`, `Item`): their behaviour lives in libraries outside this model.
- Date formatting (`formattedDate`, `Date.formatted`, `timeAgoDisplay`, `isToday`, `isThisWeek`): they depend on calendars, locales and formatters.
- Floating-point helpers: `Int.abbreviated`, `formattedAsPoints`, `formattedAsPercentage`, and the division by 255 in `Color(hex:)`. The model stops at the integer components.
- `capitalizedFirstLetter`: Unicode case mapping is outside the model.
- `ErrorMessages`, fonts, spacing, corner radii, shadows and animation durations: constants that no modelled operation reads.
- Text: letters, digits and alphanumerics are ASCII only; Foundation's classes also hold other scripts. `\d` is read as ASCII digits. A `char` stands for one `Character`, so there are no grapheme clusters.
- Constants.ScanHexInt: `scanHexInt64` also skips an optional "0x" prefix. The alphanumeric trim already stops a leading `#`, and no colour constant uses "0x", so the prefix is not modelled.
- EventModel.TimeUntilEvent: the interval is whole seconds, not a `Double`; negative intervals truncate toward zero as Swift's `Int(...)` does.
- UserModel.Progress: the result is an exact rational in place of a `Double`.
- Extensions.Truncated: takes a natural-number length, because Swift's `prefix` traps on a negative one.
- Scoring, streaks, badge unlocking, participation transitions and leaderboard sorting: the code declares records for them but implements no logic.

## Findings

| source | as written | input that shows it | evidently intended | confidence | as-written member | corrected member |
|---|---|---|---|---|---|---|
| ESG/Utils/Validators.swift:40 | `^\d{2}[A-Z]\d{7}$` demands seven digits after the letter, ten characters in all | "22B030477", the example on the same line, is rejected | two digits, a letter and six digits, as in the example | not executed | Validators.StudentIdExample | Validators.IsValidStudentIdCorrected |
