# GadiGhar marketplace: a Dafny model of its rules

This project models the rules of a small used-car marketplace. The server side is a set of PHP endpoints over two
MySQL tables, `users` and `car_listings`. The client side is a React application.

On the server side, the model covers:

- registration, with its validator, the uniqueness check, the insert and the message built from a database error;
- login, with the demo account, the password check and the session token;
- the bearer-token rule and the input sanitiser of `utils/auth.php`;
- adding a listing, with the header check, the validator, the insert and the echoed car;
- listing every car, newest first, and the row formatter;
- the search endpoint, which builds its SQL text and parameter list one filter at a time;
- the car-details lookup with its left join to the seller.

On the client side, it covers three pages:

- the search page's in-browser filter and its two state handlers;
- the dashboard's add-a-car form: validator, change handler and submit;
- the registration form: validator, change handler and submitted body.

The two tables are classes (`Store.UsersTable`, `Store.ListingsTable`) holding a sequence of rows and an
auto-increment counter. The endpoints that change a table are methods over them. The read-only endpoints are
functions of the rows. The validators that append to an error list are methods, each proved equal to a
specification function. The specification function is in turn proved to mean "every check passed", to name
exactly the failed checks, and to keep the field order.

The React components are classes whose fields are the component's state. `validateForm` is a method that
replaces the `errors` object. It is proved to produce the error object of a specification function and to answer
true exactly for a form satisfying a plain predicate. Several lemmas make the disagreements between a page and
its endpoint explicit:

- a `maxPrice` of "0" is dropped by the server but applied by the page;
- a one-letter make passes the page but is refused by the server;
- a registration without address or phone is accepted by the server but refused by the page.

Calls to code the model cannot see are parameters:

| Call | Parameter |
|---|---|
| `password_hash` | `hash` |
| `password_verify` | `verify` |
| `FILTER_VALIDATE_EMAIL` | `validEmail` |
| `random_bytes(32)` | `random` |
| `time()` | `now` |
| `date('Y')` and `new Date().getFullYear()` | `currentYear` |
| a thrown `PDOException` | `fault`, `storeFails`, `lookupFault`, `insertFault` |

## Model

| member | source | states |
|---|---|---|
| Text.Utf8Length | php-backend/register.php:9 | strlen counts UTF-8 bytes: at least one and at most four per character |
| Text.Utf16Length | project/src/pages/Registration.tsx:57 | String length counts UTF-16 code units: one or two per character |
| Text.TrimSpec | php-backend/utils/auth.php:44 | trim removes exactly the leading and trailing white space: the result is a slice whose ends are not space and everything cut off is space |
| Text.TrimIdempotent | php-backend/utils/auth.php:44 | trimming twice is trimming once |
| Text.LowerAscii | project/src/pages/SearchPage.tsx:23 | toLowerCase maps A-Z to a-z position by position and keeps every other character |
| Text.HtmlEscapeIsSafe | php-backend/cars.php:12 | htmlspecialchars output contains no raw < > " or ' |
| Text.HtmlEscapeUnchanged | php-backend/cars.php:12-18 | escaping never shortens a text, and leaves it unchanged exactly when it holds none of & < > " ' |
| Text.DecimalRoundTrip | php-backend/cars.php:11 | (string) of an id is an integer string that reads back as the same id |
| Text.LikeInfix | php-backend/search-cars.php:19-20 | for a term without % _ or \, LIKE '%term%' holds exactly when the text contains the term |
| Text.LikePrefix | php-backend/search-cars.php:19-20 | for a term without % _ or \, LIKE 'term%' holds exactly when the text starts with the term |
| Request.Get | php-backend/add-car.php:21 | reading a missing key gives null; a present key gives its value |
| Request.EmptyFieldText | php-backend/add-car.php:21 | empty() holds exactly when the value converts to "" or "0" |
| Store.FindUser | php-backend/login.php:33-35 | the row fetched has the username asked for; none is fetched exactly when no row has it |
| Store.FindListing | php-backend/get-car-details.php:17-22 | the row fetched has the id asked for; none exactly when no row has it |
| Store.OrderByIdDesc | php-backend/cars.php:5 | ORDER BY id DESC returns every row once with ids strictly decreasing |
| Store.UsersTable.constructor | php-backend/register.php:79 | an empty users table whose counter starts at 1 |
| Store.UsersTable.Insert | php-backend/register.php:79-83 | one row appended with the next id; ids stay increasing; usernames and emails stay unique |
| Store.ListingsTable.constructor | php-backend/add-car.php:80 | an empty listings table whose counter starts at 1 |
| Store.ListingsTable.Insert | php-backend/add-car.php:80-83 | one row appended; its id is the returned lastInsertId, at least 1 and above all earlier ids |
| ErrorList.FailingEmpty | php-backend/add-car.php:19-49 | the error list is empty exactly when every check passes |
| ErrorList.FailingMembers | php-backend/add-car.php:19-49 | with distinct messages, a message is listed exactly when its check failed |
| ErrorList.FailingOrdered | php-backend/add-car.php:19-49 | the error list is a subsequence of the messages in check order |
| Auth.ValidateToken | php-backend/utils/auth.php:4-19 | demo tokens give the demo identity; any other token is accepted exactly when longer than ten bytes, and then gets the generic identity |
| Auth.LongDemoTokenStaysDemo | php-backend/utils/auth.php:8-16 | a 'demo_token_' token is long enough for the length rule yet still gets the demo identity |
| Auth.ShortTokensRefused | php-backend/utils/auth.php:14-18 | every token of at most ten bytes other than 'demo_token' is refused |
| Auth.RequireAuth | php-backend/utils/auth.php:21-37 | no header or a refused token gives 'Authentication required'; otherwise the identity validateToken gives |
| Auth.BearerPrefixRemoved | php-backend/utils/auth.php:27 | 'Bearer t' carries t when t holds no 'B' |
| Auth.BareBearerRefused | php-backend/utils/auth.php:27-34 | 'Bearer ' alone carries the empty token and is refused |
| Auth.BearerRemovedInside | php-backend/utils/auth.php:27 | an inner 'Bearer ' is removed too, not only a prefix |
| Auth.BearerRemovalSinglePass | php-backend/utils/auth.php:27 | removal is one scan: a 'Bearer ' formed by a removal stays |
| Auth.SanitizeKeepsShape | php-backend/utils/auth.php:39-45 | sanitizing keeps every array's length, keys and nesting |
| Auth.SanitizeIsHtmlSafe | php-backend/utils/auth.php:44 | every string in a sanitized value is free of < > " and ' |
| Auth.SanitizeNotIdempotent | php-backend/utils/auth.php:44 | a second pass turns '&amp;' into '&amp;amp;' |
| AddCar.ValidateAuth | php-backend/add-car.php:5-14 | accepted exactly when a header is present and its token with every 'Bearer ' removed is neither "" nor "0" |
| AddCar.ValidateAuthExamples | php-backend/add-car.php:8-11 | no header, 'Bearer ' and 'Bearer 0' are refused; 'Bearer x' is accepted |
| AddCar.EmptyGuardRedundant | php-backend/add-car.php:21 | for a minimum of two bytes or more, the empty() guard changes no verdict |
| AddCar.ModelGuard | php-backend/add-car.php:25-27 | the model passes exactly when it trims to a byte or more and is not "0" |
| AddCar.ModelZeroRefused | php-backend/add-car.php:25-27 | a model "0" is one byte after trimming and is still refused |
| AddCar.CarChecksMeanValid | php-backend/add-car.php:17-50 | all seven checks pass exactly when make ≥ 2, model ≥ 1, location ≥ 3 and seller ≥ 2 trimmed bytes hold, year is in [1900, year+1], mileage ≥ 0 and price > 0 |
| AddCar.CarErrorsMeaning | php-backend/add-car.php:17-50 | no error exactly for a valid listing; each message listed exactly when its check fails; in field order |
| AddCar.ValidateCarData | php-backend/add-car.php:17-50 | the appended list is the failing-checks list of the listing |
| AddCar.HandleAddCar | php-backend/add-car.php:52-100 | header, then body, then validator; failures leave the table unchanged; success appends one row with trimmed text and integer numbers and echoes it with its id as a string; a store error gives the generic message |
| Register.RegChecks | php-backend/register.php:5-26 | one verdict per check, four in all |
| Register.LengthGuardRedundant | php-backend/register.php:9-23 | for a minimum of two bytes or more the empty() guard adds nothing |
| Register.RegChecksMeanValid | php-backend/register.php:5-26 | all checks pass exactly when untrimmed name ≥ 2, username ≥ 3 and password ≥ 6 bytes hold and the email is set and valid |
| Register.RegErrorsMeaning | php-backend/register.php:5-26 | no error exactly for a valid registration; each message listed exactly when its check fails; in field order |
| Register.ValidateInput | php-backend/register.php:5-26 | the appended list is the failing-checks list of the body |
| Register.BlankUsernameAccepted | php-backend/register.php:13-43 | three blanks pass the username check and are stored as the empty string |
| Register.FailureMessage | php-backend/register.php:108-119 | 'Duplicate entry' with 'username' blames the username, else with 'email' the email; any other error asks to try again |
| Register.FailureMessageCases | php-backend/register.php:108-119 | the four messages are exhaustive and exclusive; 'either' exactly when neither word appears |
| Register.OptionalText | php-backend/register.php:46-47 | address and phone are '' when unset and trimmed otherwise |
| Register.Register | php-backend/register.php:28-122 | invalid input, a failed check, a lookup error, a taken username or email and an insert error each leave the table unchanged with their message; success appends exactly one row and answers with name, username and email only |
| Login.HexDigitValue | php-backend/login.php:57 | reading a hex digit back gives the value that wrote it |
| Login.Hex | php-backend/login.php:57 | bin2hex writes two lower-case hex digits per byte |
| Login.HexRoundTrip | php-backend/login.php:57 | hex2bin of bin2hex gives the bytes back |
| Login.Login | php-backend/login.php:4-77 | missing credentials, demo login, store error, stored account and failure as the source orders them; any non-demo success is a stored row with that username whose hash verifies, and its token is bin2hex of the random bytes |
| Login.UnknownUserLikeWrongPassword | php-backend/login.php:37-73 | an unknown username and a wrong password get the same answer |
| Login.DemoIgnoresStore | php-backend/login.php:16-30 | the demo login succeeds whatever the table holds and even when the lookup fails |
| Login.DemoTokenAccepted | php-backend/login.php:27 | the demo token, sent as a bearer token, is taken for the demo identity |
| Login.RandomTokenAccepted | php-backend/login.php:57 | a random token, sent as a bearer token, is taken for the generic identity |
| Login.IssuedTokensAccepted | php-backend/login.php:27-57 | every token login issues passes requireAuth |
| Login.LoginAfterRegister | php-backend/login.php:11-43 | an account registered with a body can log in with that body |
| Cars.FormatRowMeaning | php-backend/cars.php:9-20 | a formatted car has its row's id as an integer string, its row's numbers and escaped text |
| Cars.FormatRows | php-backend/cars.php:9-20 | one car per row, in row order |
| Cars.ListCars | php-backend/cars.php:4-26 | a store error gives an empty array; otherwise one car per listing |
| Cars.ListCarsMeaning | php-backend/cars.php:5-20 | entry i is the i-th row from the end, and the ids sent strictly decrease |
| SearchCars.FilterPlaceholders | php-backend/search-cars.php:19-49 | each filter writes as many '?' as it binds values |
| SearchCars.AppendFilter | php-backend/search-cars.php:12-51 | appending a filter appends its text and its values |
| SearchCars.PlaceholdersMatchParams | php-backend/search-cars.php:12-51 | after any sequence of filters the query holds one '?' per parameter |
| SearchCars.SearchTerm | php-backend/search-cars.php:16-18 | a term that is used is the trimmed text and is not blank |
| SearchCars.StepKinds | php-backend/search-cars.php:16-51 | each step contributes one filter of its kind exactly when its field asks for it |
| SearchCars.FiltersMeaning | php-backend/search-cars.php:12-51 | filters come in the order model, location, maxPrice, minYear, each present exactly when its field asks for it |
| SearchCars.BlankTermDropped | php-backend/search-cars.php:17-18 | a term of blanks adds no filter |
| SearchCars.NonPositiveMaxPriceDropped | php-backend/search-cars.php:36-42 | a maximum price that is not positive is dropped silently |
| SearchCars.BuildSearchQuery | php-backend/search-cars.php:12-53 | the query text and parameters are those of the request's filters, with one '?' per parameter |
| SearchCars.AppendModel | php-backend/search-cars.php:16-24 | the model step appends the make-or-model clause and its pattern twice, or nothing |
| SearchCars.AppendLocation | php-backend/search-cars.php:27-33 | the location step appends its clause and pattern, or nothing |
| SearchCars.AppendMaxPrice | php-backend/search-cars.php:36-42 | the maxPrice step appends its clause and the integer, or nothing |
| SearchCars.AppendMinYear | php-backend/search-cars.php:45-51 | the minYear step appends its clause and the integer when in [1900, year+1], or nothing |
| SearchCars.QueryCount | php-backend/search-cars.php:53 | ORDER BY adds no placeholder |
| SearchCars.Select | php-backend/search-cars.php:55-57 | the rows returned are exactly the matching ones, and newest-first order is kept |
| SearchCars.SearchCars | php-backend/search-cars.php:4-77 | no body or a store error gives []; otherwise the matching listings, newest first, formatted |
| SearchCars.SearchResultsWithinBounds | php-backend/search-cars.php:36-51 | when the maxPrice filter applies, no car returned costs more than the bound; when the minYear filter applies, none is older than the bound |
| SearchCars.NoFiltersListsAll | php-backend/search-cars.php:12-53 | with no filter the search returns what cars.php returns |
| SearchCars.ModelFilterMatchesSubstring | php-backend/search-cars.php:19-20 | for a term without wildcards the model filter matches makes or models containing it |
| SearchCars.LocationFilterMatchesSubstring | php-backend/search-cars.php:30-31 | for a term without wildcards the location filter matches locations containing it |
| SearchCars.UnderscoreTermMatchesAny | php-backend/search-cars.php:20 | the term is not escaped: '_' matches every listing with a non-empty make or model |
| CarDetails.ListingFor | php-backend/get-car-details.php:17-23 | an integer id string selects the listing with that id; in this model no other string selects one |
| CarDetails.JoinSeller | php-backend/get-car-details.php:17-20 | seller fields are set exactly when a user has the seller's username, all three together |
| CarDetails.GetCarDetails | php-backend/get-car-details.php:1-43 | an OPTIONS preflight gets the empty response of config/database.php; any other non-GET gives 405, a missing or falsy id 400, a store error 500, an unknown id 404, else the joined row |
| CarDetails.SellerJoined | php-backend/get-car-details.php:18-19 | with unique usernames the seller fields are those of that user |
| CarDetails.NoSellerStillFound | php-backend/get-car-details.php:18-19 | a listing whose seller has no account is still returned, with null seller fields |
| CarDetails.InsertedListingFound | php-backend/get-car-details.php:9-24 | a listing just added is found under the id add-car.php echoes |
| JsValues.ToNumber | project/src/pages/Dashboard.tsx:27 | blank text is 0, an integer string its value, anything else NaN |
| JsValues.ToNumberDecimal | project/src/pages/SearchPage.tsx:30 | Number of an integer written in decimal is that integer |
| JsValues.ClearedMessage | project/src/pages/Dashboard.tsx:30-35 | an entry that exists stays and is blanked; a missing one stays missing |
| SearchPage.FilteredCars | project/src/pages/SearchPage.tsx:20-37 | the cars shown are an order-preserving sub-list, each kept, and every kept car is shown as often as it is listed |
| SearchPage.NoFiltersShowAll | project/src/pages/SearchPage.tsx:22-33 | with every field empty every listing is shown |
| SearchPage.CaseDoesNotMatter | project/src/pages/SearchPage.tsx:22-27 | a term and its lower-cased form keep the same cars |
| SearchPage.ShownCarsWithinBounds | project/src/pages/SearchPage.tsx:29-33 | with integer bounds every shown car has price ≤ maxPrice and year ≥ minYear |
| SearchPage.NonNumericPriceShowsNothing | project/src/pages/SearchPage.tsx:29-30 | a maximum price that is not a number shows nothing |
| SearchPage.PriceBoundExcludesAll | project/src/pages/SearchPage.tsx:29-30 | a price bound below every listed price shows nothing |
| SearchPage.YearBoundExcludesAll | project/src/pages/SearchPage.tsx:32-33 | a year bound above every listed year shows nothing |
| SearchPage.ZeroMaxPriceDisagrees | project/src/pages/SearchPage.tsx:29-30 | maxPrice "0" is dropped by search-cars.php but shows nothing on the page |
| SearchPage.FutureMinYearDisagrees | project/src/pages/SearchPage.tsx:32-33 | a minYear past next year is dropped by search-cars.php but shows nothing on the page |
| SearchPage.WithFilter | project/src/pages/SearchPage.tsx:39-45 | the named field takes the value and every other field is kept |
| SearchPage.Page.constructor | project/src/pages/SearchPage.tsx:12-17 | every filter starts empty |
| SearchPage.Page.Shown | project/src/pages/SearchPage.tsx:20-37 | the shown listings are a sub-list of the listings |
| SearchPage.Page.HandleFilterChange | project/src/pages/SearchPage.tsx:39-45 | only the named field changes |
| SearchPage.Page.ClearFilters | project/src/pages/SearchPage.tsx:47-54 | all four fields become empty and every listing is then shown |
| Dashboard.FieldNamed | project/src/pages/Dashboard.tsx:24-27 | the input a change event names, if any |
| Dashboard.WithError | project/src/pages/Dashboard.tsx:31-34 | the entry of one field is replaced and every other entry is kept |
| Dashboard.KeyCount | project/src/pages/Dashboard.tsx:51 | no key exactly when the errors object is empty |
| Dashboard.FormErrors | project/src/pages/Dashboard.tsx:38-51 | each field's entry is that field's check message, or none |
| Dashboard.FormErrorsMeaning | project/src/pages/Dashboard.tsx:38-51 | no error exactly when make, model and location are not blank, 1900 ≤ year ≤ next year, mileage ≥ 0 and price > 0 |
| Dashboard.CollectErrors | project/src/pages/Dashboard.tsx:39-48 | the object built field by field is the form's error object |
| Dashboard.WithInput | project/src/pages/Dashboard.tsx:25-28 | year, mileage and price take Number(value), the others the text, and no other field changes |
| Dashboard.ClearedNumbersFail | project/src/pages/Dashboard.tsx:27-48 | emptying the year or the price input gives 0, which fails its check |
| Dashboard.Payload | project/src/pages/Dashboard.tsx:57 | the body posted holds the six fields and the seller: the text as typed, each number as a JSON integer, and null for NaN |
| Dashboard.ShortMakeRefusedByServer | project/src/pages/Dashboard.tsx:41 | a make under two bytes, which the page accepts, is refused by add-car.php |
| Dashboard.ShortLocationRefusedByServer | project/src/pages/Dashboard.tsx:47 | a location under three bytes, which the page accepts, is refused by add-car.php |
| Dashboard.ShortTextAcceptedByPage | project/src/pages/Dashboard.tsx:41-48 | make "A" and location "NY" pass the page |
| Dashboard.Page.constructor | project/src/pages/Dashboard.tsx:12-21 | a hidden, empty form for the current year, without errors |
| Dashboard.Page.HandleInputChange | project/src/pages/Dashboard.tsx:23-36 | the field takes the value and only its own message, if shown, is blanked |
| Dashboard.Page.ValidateForm | project/src/pages/Dashboard.tsx:38-52 | errors are replaced by the form's error object; the answer is true exactly for a valid form |
| Dashboard.Page.HandleSubmit | project/src/pages/Dashboard.tsx:54-66 | a valid form is handed on, reset and hidden; an invalid one only gets its errors |
| Registration.FieldNamed | project/src/pages/Registration.tsx:26-30 | the input a change event names, if any |
| Registration.WithError | project/src/pages/Registration.tsx:33-36 | the entry of one field is replaced and every other entry is kept |
| Registration.KeyCount | project/src/pages/Registration.tsx:70 | no key exactly when the errors object is empty |
| Registration.Digits | project/src/pages/Registration.tsx:47 | removing non-digits leaves only digits, no more than the text had |
| Registration.DigitsKeepsEveryDigit | project/src/pages/Registration.tsx:47 | each digit of the text is kept as often as it occurs, and nothing else is kept |
| Registration.FormattedPhoneHasTenDigits | project/src/pages/Registration.tsx:47 | a phone matching "(ddd) ddd-dddd" has ten digits, so that pattern adds nothing |
| Registration.PhoneRule | project/src/pages/Registration.tsx:45-49 | the phone passes exactly when it has ten digits |
| Registration.EmailUnanchored | project/src/pages/Registration.tsx:52 | x@y.z with non-space x, y, z passes inside any surrounding text |
| Registration.EmailMatchSplits | project/src/pages/Registration.tsx:52 | a passing email splits into surrounding text and x@y.z with non-space x, y, z |
| Registration.EmailShapedNotBlank | project/src/pages/Registration.tsx:50-54 | a passing email is not blank |
| Registration.FormErrors | project/src/pages/Registration.tsx:40-67 | each field's entry is that field's check message, or none |
| Registration.BlankPasswordRequired | project/src/pages/Registration.tsx:60-61 | a white-space password is reported as missing, not as short |
| Registration.MismatchAlwaysReported | project/src/pages/Registration.tsx:65-67 | a mismatched confirmation is reported whatever the password's verdict |
| Registration.FormErrorsMeaning | project/src/pages/Registration.tsx:40-70 | no error exactly when name and address are not blank, the phone has ten digits, the email matches, username ≥ 3 and password ≥ 6 code units and not blank, and the confirmation equals the password |
| Registration.CollectErrors | project/src/pages/Registration.tsx:41-67 | the object built field by field is the form's error object |
| Registration.WithInput | project/src/pages/Registration.tsx:27-30 | the named field takes the value and no other field changes |
| Registration.Payload | project/src/pages/Registration.tsx:79-86 | the body sent holds every field but the confirmation, each as typed |
| Registration.Utf16WithinUtf8 | project/src/pages/Registration.tsx:57 | the page's length never exceeds the server's byte count |
| Registration.PageLengthsSuffice | project/src/pages/Registration.tsx:57-62 | a username and password long enough for the page are long enough for register.php |
| Registration.ShortNameRefusedByServer | project/src/pages/Registration.tsx:43 | a name under two bytes, which the page accepts, is refused by register.php |
| Registration.MissingContactAcceptedByServer | project/src/pages/Registration.tsx:44-49 | register.php decides the same without address and phone, while the page refuses the form |
| Registration.Page.constructor | project/src/pages/Registration.tsx:11-20 | an empty form without errors |
| Registration.Page.HandleInputChange | project/src/pages/Registration.tsx:25-38 | the field takes the value and only its own message, if shown, is blanked |
| Registration.Page.ValidateForm | project/src/pages/Registration.tsx:40-71 | errors are replaced by the form's error object; the answer is true exactly for a valid form |
| Registration.Page.HandleSubmit | project/src/pages/Registration.tsx:73-86 | a valid form sends its body and an invalid one sends nothing; the form keeps its contents |

## Left out

- Database credentials, the CORS headers themselves and the setup and diagnostic scripts (`setup-database.php`, `fix-password.php` and the `test-*.php` files) are I/O without rules.
- An OPTIONS preflight ends in config/database.php with an empty response before any endpoint code runs. Only CarDetails.GetCarDetails takes the request method, and it models this as `Preflight`. The other endpoints take no request method, so their preflight answer is not modelled.
- The `error_log` calls (for example register.php:50, 64 and 73, login.php:39-55 and the catch blocks) write only to the server log and are not modelled.
- Integers are unbounded. json_decode turns an integer above PHP_INT_MAX into a float, `(int)` saturates an oversized numeric string (add-car.php:73-76, search-cars.php:37 and 46), and MySQL INT columns have a fixed range. So a price of "99999999999999999999" is stored and echoed as 10^20 by AddCar.HandleAddCar, which the program does not do.
- The HTTP client (`services/api.ts`), routing and rendering in `App.tsx`, `Layout.tsx`, `Homepage.tsx`, `AboutUs.tsx` and `Login.tsx`, and the alerts, loading flags and animations of the modelled pages are presentation only.
- bcrypt hashing and verification, `random_bytes`, `FILTER_VALIDATE_EMAIL`, `time()` and the wall-clock year are parameters. The salt of `password_hash` and the second, discarded hash call in register.php are therefore not modelled.
- `exit`, `die`, `echo json_encode` and the HTTP status are modelled as the returned value.
- Request.Field: a body field is a string, an integer or null. Booleans, floats, nested arrays and objects cannot be represented, and neither can a body that decodes to a scalar. So `{"model": true}`, which add-car.php accepts and stores as "1", and a top-level JSON `true`, which passes the `!$input` guards of login.php and register.php, are outside the model.
- CarDetails.ListingFor: only an integer string selects a listing. MySQL converts the bound string to a number for the comparison with the integer id column, so " 5", "5abc", "5.0" and "5e0" also select listing 5 there, while the model answers 404 for them.
- A failed database connection in config/database.php ends every endpoint with an empty response before its own code runs. The model's fault parameters stand only for failing statements, not for that exit.
- Request.IsNumeric: only integers and integer strings are numeric. Decimal strings, exponents and leading white space, which PHP's is_numeric also accepts, are treated as not numeric, so `(int)` truncation never arises.
- JsValues.ToNumber: any text that is not blank and not an integer string is NaN. JavaScript's Number reads decimals, exponents, hex and 'Infinity' as numbers, and the model does not.
- Text.LowerAscii: only A-Z are lower-cased. JavaScript's toLowerCase also maps non-ASCII letters.
- Text.HtmlEscape: it follows the PHP 8.1 default flags, the same as ENT_QUOTES, for every call. Older PHP versions leave the single quote alone in cars.php and search-cars.php. The empty result for invalid UTF-8 is not modelled, since strings here are sequences of code points.
- Store.FindUser: matching is exact. MySQL's default collation compares case-insensitively, and ignores trailing spaces in `=` (but not in `LIKE`).
- Store.UsernameOrEmailTaken: matching is exact. Under MySQL's collation, registering "Alice" when "alice" exists is refused at register.php:60-65, while the model inserts the row.
- SearchCars.Matches: LIKE is case-sensitive here. MySQL's collation lets "toyota" find a "Toyota" listing at search-cars.php:19-20. SearchCars.ModelFilterMatchesSubstring and SearchCars.LocationFilterMatchesSubstring state exact-case containment for that reason.
- CarDetails.JoinSeller: the `cl.seller = u.username` join compares exactly, not under MySQL's case-insensitive collation.
- Store.UsersTable.Insert: the unique keys are a precondition. A duplicate that reaches the insert is modelled by the `insertFault` message, not by the table.
- SearchCars.SearchCars: the text after `?>` at the end of search-cars.php, which PHP prints verbatim after the JSON, is not modelled.
- Dashboard.Page.HandleInputChange and Registration.Page.HandleInputChange: a change event whose name is no input's adds a key that nothing reads, so the model leaves the form unchanged.
- Each page's `errors` object is a record with one optional message per input, not an open dictionary.
- Registration.Page.HandleSubmit: the awaited onRegister call, its success and error pop-ups and `isLoading` are not modelled. The method returns the body that would be sent.
- Dashboard.Page.HandleSubmit: the pop-up after a listing is added is not modelled. `onAddCar` is modelled by returning the form data it receives.
- The JSON encoding of NaN as null is modelled in Dashboard.Payload. Floating-point numbers are not modelled.
