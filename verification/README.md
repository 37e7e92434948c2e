# Errant Dreams — a Dafny model of the account, token and character core

Errant Dreams is a browser role-playing game. It has a Django REST back end and a React front end. This project models its core in Dafny:

- **Catalogue and compatibility check.**
  - Factions, races and classes are closed datatypes, together with the stored names of their choices.
  - The character serializer's race→class compatibility table is modelled together with the rejection message it builds.
- **Request handlers.** Login, forgotten password, password reset, character creation and character retrieval are pure functions.
  - Each takes an immutable `Store` (the user, token and character tables in key order) and the time in seconds.
  - Each returns what the view produces and the new store. `Replied` is a response. `NoReply` means the view returned `None`, which the framework refuses with a server error (HTTP 500). `Raised` is an uncaught exception, which also reaches the client as a server error.
  - Password hashing is a function parameter. The fresh token digest is a value parameter.
- **Game screen chat.** The state is a record of the loaded character, the message list, the input text and the channel. It is driven by submit and slash-command handlers.
- **Client form guards.**
  - Password-reset page: the link check, the two guards, the payload and the outcome handling.
  - Sign-in page: the login and register flows, the dispatch by mode and field edits.
- **Faction selection.** This is the single client-side step of character creation.

The quirks of the code are modelled as written:

- A reset for a user without tokens raises. The query `[0]` fails on an empty result, so the code's `token_obj is None` test can never fire.
- A reset whose password update touches no row returns `None`, so the client gets a server error.
- A login for an unknown email raises. `objects.get` never returns `None`.
- The token serializers never reject the 128-hex-digit digests that login and forgotten-password create. Their failure branches are therefore unreachable and are not modelled.

The server never checks that a race belongs to a faction (`Serializers.FactionIsNotChecked`).

The module layout follows the program:

- `Models`, `Serializers` and `Views` mirror the Django files.
- `Store` holds the tables, their invariants and the queries.
- `ViewProperties` holds the properties that span several requests.
- `Chat`, `ResetPage`, `AuthPage` and `FactionPage` mirror the React views.
- `Web` is what the pages see of HTTP responses.
- `Lists`, `Text` and `Wrappers` are generic helpers.

## Model

| member | source | states |
|---|---|---|
| Models.ParseFaction | src/api/models.py:23-26 | a text is a faction choice exactly when it is the stored name of one of the two factions, and parsing gives that faction back |
| Models.ParseRace | src/api/models.py:28-35 | a text is a race choice exactly when it is the stored name of one of the six races, and parsing gives that race back |
| Models.ParseClass | src/api/models.py:37-44 | a text is a class choice exactly when it is the stored name of one of the six classes, and parsing gives that class back |
| Models.ChoicesAreTheEnumerations | src/api/models.py:23-44 | there are exactly two faction, six race and six class choices, and every enumeration value's name is a choice that parses back to it |
| Models.NewToken | src/api/models.py:10 | a token row created without a used flag is unused and keeps the given string, owner and times |
| Models.DefaultCharacter | src/api/models.py:48-57 | a character with its defaults is named "Unnamed Hero", has level 1, experience 0, gold 0 and is active |
| Models.CharacterStringShape | src/api/models.py:69-70 | a character's string form is its name, then " (" and the race, then a space and the class, then ")" |
| Serializers.WritableFields | src/api/serializers.py:19-21 | the writable fields are exactly the declared fields that are not read-only, so id, created_at, level, experience and gold cannot be set |
| Serializers.ClassNames | src/api/serializers.py:24-31 | a row of the table lists the stored class names in table order |
| Serializers.AllowedClasses | src/api/serializers.py:37 | a race that is not a key of the table allows no class |
| Serializers.ClassNameInjective | src/api/models.py:37-44 | distinct classes have distinct stored names |
| Serializers.AllowedClassesOfRace | src/api/serializers.py:24-31 | a class name is allowed for a race exactly when the class is in that race's row |
| Serializers.RowMatchesRacesFor | src/api/serializers.py:24-31 | each row agrees with the class-side relation (which races each class is open to) |
| Serializers.TableMatchesRacesFor | src/api/serializers.py:24-38 | the allowed-class lookup and the class-side relation agree for every race and class |
| Serializers.CastilianClasses | src/api/serializers.py:25 | a Castilian may be exactly a Knight or an Arbalist |
| Serializers.CatalogueWellFormed | src/api/serializers.py:24-31 | every row is non-empty and lists only class choices, every class is open to some race, and the keys are exactly the race choices |
| Serializers.UnknownRaceAllowsNothing | src/api/serializers.py:37-38 | for a race absent from the table every class is rejected |
| Serializers.RejectionMessage | src/api/serializers.py:39-42 | the message is the race, " cannot be a ", the class, and ends with the allowed names joined by ", " |
| Text.ConcatSlices | src/api/serializers.py:39-42 | each of the five pieces of the rejection message can be read back at its own offsets |
| Serializers.Validate | src/api/serializers.py:23-44 | data is rejected exactly when race and class are both non-empty and the class is not allowed for the race, with the rejection message; otherwise it passes unchanged |
| Serializers.ValidateMatchesEligibility | src/api/serializers.py:36-44 | for catalogue values the check accepts exactly the pairs of the class-side relation |
| Serializers.FactionIsNotChecked | src/api/serializers.py:33-44 | the check ignores the faction: a Moorish Castilian Knight passes |
| Serializers.CastilianRow | src/api/serializers.py:25 | the Castilian row is Knight then Arbalist |
| Serializers.CastilianAlchemistMessage | src/api/serializers.py:36-42 | a Castilian Alchemist is refused with "Castilian cannot be a Alchemist. Available classes: Knight, Arbalist" |
| Store.ActiveCharacter | src/api/views/api/views.py:262 | no active character is found exactly when the user has none; a found one is an active row of that user |
| Store.ActiveCharacterUnique | src/api/models.py:59-67 | with at most one active character per user, the active character found is the only one |
| Store.NewestOf | src/api/views/api/views.py:63-64 | the newest token of a user has the greatest creation time among the user's tokens; there is none exactly when the user has no token |
| Store.NewestOfFrame | src/api/views/api/views.py:63-64 | which token is newest depends only on owners and creation times, not on used flags or token strings |
| Store.NewestOfAppend | src/api/views/api/views.py:63-64 | a token added after all of its owner's earlier tokens becomes the owner's newest |
| Store.MarkUsedAt | src/api/views/api/views.py:82-87 | marking a token used changes that row's flag and no other row |
| Store.SetPassword | src/api/views/api/views.py:84-85 | the update replaces the password of the rows with that id and leaves all other rows unchanged |
| Views.BearerToken | src/api/views/api/views.py:239 | the token is the second space-separated field of the header and contains no space |
| Views.BearerTokenOf | src/api/views/api/views.py:236-239 | a header "Bearer {t}" whose t has no space yields t |
| Views.UserFromToken | src/api/views/api/views.py:233-249 | no header, or one not starting with "Bearer ", gives no user; an authenticated user owns a token with that exact string that expires after now and is unused |
| Views.NoLiveTokenNoUser | src/api/views/api/views.py:241-249 | without a matching live token nobody is authenticated |
| Views.ChoiceError | src/api/models.py:49-51 | a choice field has no error exactly when its value is present and one of the choices |
| Views.NameError | src/api/models.py:48 | the name has no error exactly when, stripped, it is non-blank, at most 255 characters and free of NUL; the first failing check (blank, then too long, then NUL) gives the message |
| Views.Present | src/api/views/api/views.py:308-313 | the collected messages are empty exactly when no field has an error |
| Views.FieldErrors | src/api/views/api/views.py:287-288 | the field checks pass exactly when name, faction, race and class all pass |
| Views.ErrorTextSingle | src/api/views/api/views.py:308-316 | a single error without surrounding whitespace comes back unchanged from the concatenate-and-strip step |
| Views.CreateCharacter | src/api/views/api/views.py:252-325 | 401 exactly for no user, 500 exactly when the token lookup raises; only 201 is a success and only 201 changes the store |
| Views.CreateAs | src/api/views/api/views.py:262-318 | an existing active character gives 400 and is reported back; failing field checks give 400 with each field's first error, space-joined and stripped, and change nothing; a 201 only follows passing field checks and appends one active character with the next id, the stripped requested or "{username}'s Hero" name, level 1, experience 0, gold 0, an allowed class, and the welcome message; with valid fields, 201 exactly when the class is allowed for the race |
| Views.GetCharacter | src/api/views/api/views.py:327-368 | 401 for no user, 404 exactly when the user has no active character, 200 with an active character of that user |
| Views.ResetPassword | src/api/views/api/views.py:57-94 | a missing key or a user without tokens raises; the newest token's expiry is checked before its match and used flag; a live, matching, unused newest token resets the password of an existing user, replacing it and marking exactly that token used; the view returns `None` exactly when no user has the id, with the store unchanged |
| Views.Login | src/api/views/api/views.py:180-231 | it raises unless exactly one user has the email; otherwise it replies 200, with success exactly when the password hash matches; success stores an unused token expiring seven days later and returns it with the user's id, name and email |
| Views.ForgotPassword | src/api/views/api/views.py:97-151 | every failure is caught and the view returns `None` (a server error for the client), never raising; a found user gets an unused token expiring one day later and a mail to the request's address with the id and token link; a reply only when the mail went out |
| ViewProperties.AppendKeepsOneActive | src/api/models.py:59-67 | adding the only active character of a user keeps at most one active character per user |
| ViewProperties.CreatePreservesValid | src/api/models.py:59-67 | character creation keeps every key unique, including the new character's, and one active character per user |
| ViewProperties.ResetPreservesValid | src/api/views/api/views.py:82-87 | a reset keeps unique ids and emails and token keys |
| ViewProperties.LoginPreservesValid | src/api/views/api/views.py:208-210 | a login keeps every table invariant |
| ViewProperties.ForgotPreservesValid | src/api/views/api/views.py:116-118 | a forgotten-password request keeps every table invariant |
| ViewProperties.AuthFrame | src/api/views/api/views.py:233-249 | authentication reads only the token and user tables |
| ViewProperties.CreateThenGet | src/api/views/api/views.py:288-361 | after a successful creation, retrieval with the same header returns the created character |
| ViewProperties.CreateTwiceRefused | src/api/views/api/views.py:262-276 | a second creation by the same user is refused with the first character and changes nothing |
| ViewProperties.CreationIgnoresReadOnly | src/api/views/api/views.py:278-285 | level, experience and gold in a creation request make no difference |
| ViewProperties.CatalogueNamesUnpadded | src/api/models.py:28-44 | race names start, and class names end, with a non-space |
| ViewProperties.RejectionMessageUnpadded | src/api/serializers.py:39-42 | the rejection message for a known race has no surrounding whitespace |
| ViewProperties.CreationRejectionMessage | src/api/views/api/views.py:307-318 | an incompatible race and class are refused with 400 and exactly the rejection message |
| ViewProperties.NullCharacterRefused | src/api/views/api/views.py:307-318 | a name holding a NUL character, with valid choices, is refused with 400 and exactly the null-character message |
| ViewProperties.HexDigestHasNoSpace | src/api/views/api/views.py:198-200 | a hex digest has no space, so it survives the header split |
| ViewProperties.GetById | src/api/views/api/views.py:246 | with unique ids the lookup by a user's id finds that user |
| ViewProperties.LoginThenAuthenticate | src/api/views/api/views.py:195-247 | the login token, sent as a bearer header, authenticates the logged-in user until seven days have passed |
| ViewProperties.LoginTokenExpires | src/api/views/api/views.py:196-247 | after seven days the login token authenticates nobody |
| ViewProperties.ResetOnce | src/api/views/api/views.py:73-87 | a successful reset cannot be repeated: the same request is refused and changes nothing |
| ViewProperties.ForgotThenReset | src/api/views/api/views.py:57-122 | the mailed id and token reset the password within a day |
| ViewProperties.SplitAtSeparator | src/api/views/api/views.py:122 | texts joined at a separator absent from their first parts are equal only if both parts are |
| ViewProperties.ResetLinkShape | src/api/views/api/views.py:122 | the reset link is the id part, "&", then the token part, and the id part has no "&" |
| ViewProperties.ResetLinkInjective | src/api/views/api/views.py:122 | the reset link determines the id and the token it carries |
| Chat.Notices | src/ui/src/views/Game.tsx:57-65 | system lines carry the given contents in order |
| Chat.AddSystemMessage | src/ui/src/views/Game.tsx:57-65 | appends exactly one system line and changes nothing else |
| Chat.AddSystemMessages | src/ui/src/views/Game.tsx:107-112 | successive system lines are appended in order after the existing messages |
| Chat.AddPlayerMessage | src/ui/src/views/Game.tsx:67-79 | without a character nothing changes; otherwise one player line from the character on the given channel is appended |
| Chat.CommandWord | src/ui/src/views/Game.tsx:104 | the command word is a prefix of the line and contains no space |
| Chat.ParseCommand | src/ui/src/views/Game.tsx:104-106 | the command is help, who, time or stats exactly when the lower-cased first word is that command; otherwise it is unknown with the word as typed |
| Chat.HandleCommand | src/ui/src/views/Game.tsx:103-139 | only system lines are appended: 5 for help, 3 for who, 1 for time, 6 for stats with a character and none without, and 1 echo for an unknown word |
| Chat.SendMessage | src/ui/src/views/Game.tsx:81-101 | blank input or no character changes nothing; a "/" line runs the command; anything else appends exactly one player line with the trimmed text; messages are only appended and the input is cleared |
| Chat.Mount | src/ui/src/views/Game.tsx:33-47 | a stored character is greeted with two system lines; without one nothing is shown and faction selection follows after two seconds |
| Chat.SessionWithoutCharacter | src/ui/src/views/Game.tsx:83-85 | without a loaded character, no submission adds a message |
| Chat.MountedSession | src/ui/src/views/Game.tsx:33-100 | after opening the screen and any typing: with a stored character the greeting stays first and every player line is that character's; without one, the list stays empty |
| Chat.Type | src/ui/src/views/Game.tsx:266 | typing replaces only the input text |
| Chat.SessionAppendOnly | src/ui/src/views/Game.tsx:64-78 | over any number of submissions, earlier messages are never removed or reordered |
| Chat.SendKeepsSenders | src/ui/src/views/Game.tsx:67-78 | every player line keeps being attributed to the loaded character |
| Chat.SessionKeepsSenders | src/ui/src/views/Game.tsx:67-98 | over a whole session every player line comes from the loaded character |
| Chat.CommandCaseInsensitive | src/ui/src/views/Game.tsx:106-107 | "/HeLp" is the help command |
| Chat.ArgumentsIgnored | src/ui/src/views/Game.tsx:104 | words after the command word do not change the command |
| Chat.DanceIsUnknown | src/ui/src/views/Game.tsx:104-136 | "/Dance now" is an unknown command whose word is "/Dance" |
| Chat.UnknownEchoesCase | src/ui/src/views/Game.tsx:136-137 | an unknown command is echoed in the case it was typed |
| Web.Render | src/ui/src/views/Auth/AuthPage.tsx:47 | a string renders as itself and any other value as a non-empty text |
| Web.Or | src/ui/src/views/ResetPasswordPage.tsx:62 | `a \|\| b` is a when a is truthy, b otherwise |
| ResetPage.Open | src/ui/src/views/ResetPasswordPage.tsx:20-33 | the link is valid exactly when id and token are both given; otherwise an error is shown and neither is kept |
| ResetPage.Change | src/ui/src/views/ResetPasswordPage.tsx:78-83 | an edit sets the named field and leaves the other field and the page as they were |
| ResetPage.Guard | src/ui/src/views/ResetPasswordPage.tsx:38-46 | a request is allowed exactly when the entries agree and the password is at least six UTF-16 units; a mismatch is reported before a short password |
| ResetPage.Notice | src/ui/src/views/ResetPasswordPage.tsx:56-72 | success is shown only when `success` is exactly true; otherwise the server's truthy message, else the fallback for the kind of failure |
| ResetPage.Submit | src/ui/src/views/ResetPasswordPage.tsx:35-76 | on a page showing the form, a failed guard sends nothing and changes nothing; otherwise exactly id, token and password are sent, success is set only on an explicit success, and loading ends |
| ResetPage.MatchingEntriesSend | src/ui/src/views/ResetPasswordPage.tsx:38-55 | the same long enough password in both fields, in either order, is sent |
| ResetPage.MismatchReportedFirst | src/ui/src/views/ResetPasswordPage.tsx:38-46 | a mismatched short password is reported as a mismatch and sends nothing |
| ResetPage.ChangesCommute | src/ui/src/views/ResetPasswordPage.tsx:78-83 | edits to different fields commute; the later edit to one field wins |
| ResetPage.FormShownIffLinkGiven | src/ui/src/views/ResetPasswordPage.tsx:25-33 | after opening, the form is shown exactly when the link carried both id and token |
| ResetPage.OpenedLinkSends | src/ui/src/views/ResetPasswordPage.tsx:31-55 | on a page opened from a complete link, matching long enough entries send exactly that link's id and token with the password |
| ResetPage.SuccessHidesForm | src/ui/src/views/ResetPasswordPage.tsx:58-60 | after a submission the form is still shown exactly when no request went out or the reset did not succeed |
| AuthPage.Change | src/ui/src/views/Auth/AuthPage.tsx:85-90 | an edit sets exactly the named field |
| AuthPage.Login | src/ui/src/views/Auth/AuthPage.tsx:19-30 | email and password are sent; only an explicit success saves token and user and goes to the game; any other answer shows the message; a failed request has no effect |
| AuthPage.Register | src/ui/src/views/Auth/AuthPage.tsx:32-61 | unequal passwords show an error and send nothing; otherwise username, email and password are sent; success keeps only the email, clears the rest and switches to login mode |
| AuthPage.Submit | src/ui/src/views/Auth/AuthPage.tsx:63-83 | login mode sends email and password, register mode the whole form; without a request the page is unchanged |
| AuthPage.Toggle | src/ui/src/views/Auth/AuthPage.tsx:193 | toggling flips the mode and keeps the form |
| AuthPage.RegisterThenLogin | src/ui/src/views/Auth/AuthPage.tsx:46-74 | after a successful registration, submitting logs in with the registered email |
| AuthPage.TruthyIsNotSuccess | src/ui/src/views/Auth/AuthPage.tsx:22 | a truthy but non-true `success` saves no token |
| FactionPage.Select | src/ui/src/views/FactionSelectionPage.tsx:9-11 | selecting sets the selection and leaves loading alone |
| FactionPage.Confirm | src/ui/src/views/FactionSelectionPage.tsx:13-35 | without a selection an error is shown, nothing is scheduled and loading is not set; with one the faction is announced, the game follows after two seconds and loading is off |
| FactionPage.LastSelectionWins | src/ui/src/views/FactionSelectionPage.tsx:9-11 | the later of two selections wins |
| FactionPage.EnabledIffNavigates | src/ui/src/views/FactionSelectionPage.tsx:84 | when not loading, the button is enabled exactly when confirming would navigate to the game |
| FactionPage.SelectThenConfirm | src/ui/src/views/FactionSelectionPage.tsx:9-35 | selecting on a fresh page enables confirmation, which ends with loading off and the selection kept |
| FactionPage.AnnouncedFactionIsAChoice | src/ui/src/views/FactionSelectionPage.tsx:23-65 | the selectable factions are the stored faction choices, and the welcome names the faction |
| Lists.Filter | src/api/views/api/views.py:63 | filtering keeps exactly the matching rows |
| Lists.First | src/api/views/api/views.py:262 | the first match, none exactly when nothing matches |
| Lists.MapWhere | src/api/views/api/views.py:84-85 | an update changes exactly the matching rows |
| Lists.Get | src/api/views/api/views.py:241-246 | a single-row lookup finds a row exactly when one row matches |
| Lists.FilterAppend | src/api/views/api/views.py:241-245 | filtering a table with a row added adds the row when it matches |
| Lists.FilterNone | src/api/views/api/views.py:241-245 | nothing matching gives an empty filter |
| Lists.FilterSingleton | src/api/views/api/views.py:246 | one matching position gives that row alone |
| Lists.FirstAppend | src/api/views/api/views.py:338 | a matching row added to a table without matches is the first match |
| Text.SkipForward | src/ui/src/views/Game.tsx:84 | the scan stops at the first non-space after its start, having passed only whitespace |
| Text.SkipBackward | src/api/views/api/views.py:316 | the backward scan stops after the last non-space before its end, having passed only whitespace |
| Text.Trim | src/api/views/api/views.py:316 | the result is a slice whose cut-off ends are all whitespace and which neither starts nor ends with whitespace |
| Text.TrimEmptyIffAllSpace | src/ui/src/views/Game.tsx:84 | trimming leaves nothing exactly when every character is whitespace |
| Text.TrimUnpadded | src/api/views/api/views.py:316 | text that neither starts nor ends with whitespace is unchanged by trimming |
| Text.TrimIdempotent | src/ui/src/views/Game.tsx:87 | trimming twice is trimming once |
| Text.Fields | src/ui/src/views/Game.tsx:104 | split gives at least one field, no field contains the separator, and one field exactly when there is no separator |
| Text.JoinFields | src/ui/src/views/Game.tsx:104 | joining the fields with the separator gives the text back |
| Text.JoinConsEmpty | src/ui/src/views/Game.tsx:104 | an empty first field puts the separator at the front of the join |
| Text.JoinConsHead | src/ui/src/views/Game.tsx:104 | a character prepended to the first field is prepended to the join |
| Text.FieldsJoin | src/api/serializers.py:42 | splitting separator-free parts after joining gives the parts back |
| Text.FieldsNoSep | src/api/views/api/views.py:239 | a separator-free text is one field |
| Text.FieldsConcat | src/api/views/api/views.py:239 | splitting after a separator-free head gives the head then the tail's fields |
| Text.FirstFieldIsPrefix | src/ui/src/views/Game.tsx:104 | the first field is the text before the first separator |
| Text.JoinEndsWithLast | src/api/serializers.py:42 | a join ends with the last part |
| Text.Utf16Length | src/ui/src/views/ResetPasswordPage.tsx:43 | a string's length in UTF-16 units is between its code-point count and twice that |
| Text.Lower | src/ui/src/views/Game.tsx:106 | lower-casing keeps the length and lowers each ASCII letter |
| Text.NatToString | src/api/views/api/views.py:122 | decimal digits without a leading zero |
| Text.IntToString | src/api/views/api/views.py:122 | the rendering starts with "-" exactly for negatives and holds only digits and "-" |
| Text.NatToStringRoundTrip | src/api/views/api/views.py:122 | reading back a rendered number gives the number |
| Text.IntToStringInjective | src/api/views/api/views.py:122 | distinct ids render differently |

## Left out

- The ORM and database are left out. Tables are sequences in key order. `UniqueConstraint` enforcement is stated as the invariant `Store.Valid`, which every handler is proved to keep.
- `make_password`, SHA-512 and `uuid` are not modelled. The hash is an uninterpreted function parameter and the digest a value parameter required to be 128 hex digits.
- `send_mail` and `mail_template` are not modelled. The mail is a record of recipient, subject and link. Whether delivery succeeds is a parameter.
- `timezone.now()`, `Date` and `toLocaleTimeString` are not modelled. Time is an integer number of seconds, and the chat's clock text is a parameter.
- `HelloAPIView`, `DateAPIView` and `RegistrationView` are not modelled. They are a trivial greeting, a broken date view and a plain serializer save outside the character core.
- `Views.CreateAs`: the 400 reply for an existing character carries the whole row, where the server sends only its name, faction, race and class. The 201 reply also carries the whole row, where the server sends id, name, faction, race, class, level, experience and gold.
- `Views.GetCharacter`: the 200 reply carries the whole row, where the server sends a fixed subset of its fields.
- `Views.CreateCharacter`: an explicit JSON `null` name is treated like an absent key (absent keys are modelled as `None`). The framework's own null check on the name is not modelled.
- `Views.ResetPassword`: an explicit JSON `null` body value is not modelled; `None` stands only for an absent key, which raises. On the server a null token is compared and reported as an invalid link, and a null password is hashed to an unusable password.
- `Views.ResetPassword`: the id is an integer. The reset page sends the query-string text, which the database layer converts; a non-numeric id raises on the server and is not modelled.
- `Views.Login`: an explicit JSON `null` body value is not modelled; `None` stands only for an absent key, which raises. On the server a null password hashes to an unusable password and gets "Invalid Login Credentials!".
- The field-level messages ("This field may not be null.", the blank, too-long and null-character messages, and `"x" is not a valid choice.`) are the serializer framework's defaults. They are not written in this repository.
- When two tokens of a user have the same creation time, `Store.NewestOf` picks the earlier row. The database's tie order is unspecified.
- `Text.Lower` lowers ASCII letters only. JavaScript's full Unicode case mapping is not modelled. The four command words are ASCII.
- The chat input's `maxLength` of 200 is not modelled. Neither are message ids, timestamps, scrolling, the console log and the commented-out channel tabs, so the channel stays global.
- `ResetPage.Submit`: the browser's own form validation is not modelled. The inputs are `required` with `minLength` 6, so the browser blocks an empty or short entry before the handler's guards run.
- `ResetPage.MismatchReportedFirst`: states the handler's order of guards. In the browser, a short entry is blocked by `minLength` before the handler runs.
- `AuthPage.Submit`: the browser's own form validation is not modelled. The inputs are `required` and the email input has type `email`, so the browser blocks empty fields and malformed addresses before the handler runs.
- `Chat.Mount`: an empty stored string, and JSON that does not parse, are not modelled. The stored character is either present or absent.
- axios, localStorage, `window.location` and `setTimeout` are modelled only as output fields: the request sent, values saved, navigation target and delay. Toasts are records.
- Rendering, CSS and the other pages are not modelled: StartPage, the stub AuthPage in the views root, ForgotPasswordPage, IndexPage and the router.
