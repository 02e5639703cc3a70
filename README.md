# NGO platform core, modelled in Dafny

This project models the business core of the NGO donation platform, a web application written in C#:

- **ECPay payment adapter.** The CheckMacValue integrity code, the signed checkout request and the callback that settles an order.
- **Achievement engine.** Five achievements, their rules over activity registrations, the award pass and the achievement list.
- **Account rules.** Password checking, login precedence, registration, Google first sign-in and the password-reset token lifecycle.
- **Listing pages and view models.** The donor's purchase records, profile figures and registrations; the donation page; the case's supply records, password change and registrations; the case activity list and sign-up.

The database becomes in-memory tables: sequences of entity rows. Each request is one atomic update of those tables. The clock is a parameter (`Instant`, an integer tick count). Decimal amounts are exact `real`s.

The source's hashing and encoding services are parameters:

- MD5 is a function returning exactly 16 bytes.
- `WebUtility.UrlEncode` is a string function.
- BCrypt is a `PasswordService` with a hash and a verify function.

The culture-dependent string ordering of `OrderBy` is a parameter too. Lemmas that need it assume it is a total preorder.

Code the source writes as queries becomes functions. Code that changes state in place becomes methods of classes:

- `EcpayService`, `AchievementService`, `AuthController`, `UserController`, `CaseController` and `ActivityController`.
- Each method is tied by its `ensures` to a function of the old state. The lemmas are stated about that function.

Modules:

- `Wrappers`, `Text`, `Seqs`, `Keywords` (`common.dfy`): Option, the .NET string operations used, LINQ operators as sequence functions, and keyword classifiers as data.
- `Entities` (`entities.dfy`): the table rows.
- `Ecpay` (`ecpay.dfy`), `Achievements` (`achievements.dfy`), `Auth` (`auth.dfy`).
- `ViewModels` (`view_models.dfy`), `Users` (`users.dfy`), `Purchase` (`purchase.dfy`), `Cases` (`cases.dfy`), `Activities` (`activities.dfy`).

Source paths below are relative to the repository root.

## Model

| member | source | states |
|---|---|---|
| Ecpay.Lookup | NGOPlatformWeb/Services/EcpayService.cs:42-60 | a key is absent exactly when the lookup fails; a found value is stored under that key |
| Ecpay.SetParam | NGOPlatformWeb/Services/EcpayService.cs:60 | the dictionary assignment keeps the key order when the key exists and appends the key otherwise; every other key keeps its value |
| Ecpay.SetParamStores | NGOPlatformWeb/Services/EcpayService.cs:60 | after `parameters[k] = v`, looking up `k` gives `v` |
| Ecpay.AppendWhenAbsent | NGOPlatformWeb/Services/EcpayService.cs:60 | assigning a key that is not present appends exactly that pair |
| Ecpay.Signed | NGOPlatformWeb/Services/EcpayService.cs:122-123 | the signed pairs are exactly the pairs whose key is not CheckMacValue and whose value is non-empty |
| Ecpay.CanonicalSortedByKey | NGOPlatformWeb/Services/EcpayService.cs:122-125 | the canonical pairs are ordered by key and are a permutation of the signed pairs |
| Ecpay.RawString | NGOPlatformWeb/Services/EcpayService.cs:128-129 | the text starts with `HashKey=<key>&` and ends with `&HashIV=<iv>` |
| Ecpay.DigestInput | NGOPlatformWeb/Services/EcpayService.cs:132 | the text fed to the digest has no upper-case ASCII letter |
| Ecpay.HexPair | NGOPlatformWeb/Services/EcpayService.cs:138 | a byte is written as two upper-case hex digits |
| Ecpay.Hex | NGOPlatformWeb/Services/EcpayService.cs:138 | a byte string becomes twice as many upper-case hex digits |
| Ecpay.RemoveDashes | NGOPlatformWeb/Services/EcpayService.cs:138 | no dash is left |
| Ecpay.RemoveDashesAppend | NGOPlatformWeb/Services/EcpayService.cs:138 | removing dashes distributes over concatenation |
| Ecpay.RemoveDashesOfHexPair | NGOPlatformWeb/Services/EcpayService.cs:138 | a hex pair holds no dash |
| Ecpay.UndashedIsHex | NGOPlatformWeb/Services/EcpayService.cs:138 | the dash-separated hex of the digest, dashes removed, is the plain hex of the bytes |
| Ecpay.DigestTextIsHex | NGOPlatformWeb/Services/EcpayService.cs:138 | the same text after the final `ToUpper()` is still that plain hex |
| Ecpay.CheckMacValue | NGOPlatformWeb/Services/EcpayService.cs:119-140 | the code has 32 characters, all upper-case hex digits, and is the hex of the 16-byte digest of the UTF-8 bytes of the lower-cased, URL-encoded text |
| Ecpay.SignedIgnoresCheckMac | NGOPlatformWeb/Services/EcpayService.cs:122-123 | setting CheckMacValue, to any value, leaves the signed pairs unchanged |
| Ecpay.CheckMacIgnoresCheckMac | NGOPlatformWeb/Services/EcpayService.cs:59-60 | the code is the same with or without a CheckMacValue entry, so attaching it and recomputing gives it back |
| Ecpay.SignedIgnoresEmpty | NGOPlatformWeb/Services/EcpayService.cs:123 | an entry with an empty value does not contribute to the signed pairs |
| Ecpay.PaymentParameters | NGOPlatformWeb/Services/EcpayService.cs:42-56 | for a price whose `(int)` cast does not overflow: the twelve keys in order, with the merchant id, MerchantTradeNo equal to the order number, and TotalAmount a text that reads back as the price truncated toward zero |
| Ecpay.CheckMacKeyNotAPaymentKey | NGOPlatformWeb/Services/EcpayService.cs:42-56 | CheckMacValue is not one of the twelve keys |
| Ecpay.SignedPaymentParametersShape | NGOPlatformWeb/Services/EcpayService.cs:42-60 | the form is the twelve pairs followed by CheckMacValue; the attached code is the code of the twelve, and recomputing it over the whole form gives the same code |
| Ecpay.Settle | NGOPlatformWeb/Services/EcpayService.cs:86-111 | with no trade number, order or transaction, nothing changes and the result is false; otherwise the raw fields are stored; RtnCode 1 gives Success and 已付款 and true; any other code gives Failed and 付款失敗 and false; every other field of the matched order and transaction (price, donor, order number, trade number) is kept, and no other row changes |
| Ecpay.SettleIgnoresSignature | NGOPlatformWeb/Services/EcpayService.cs:78-117 | replacing the CheckMacValue field with any value leaves the result and every status unchanged |
| Ecpay.SettleKeepsTarget | NGOPlatformWeb/Services/EcpayService.cs:90-91 | settling keeps the matched order and transaction where a later lookup by the same number finds them |
| Ecpay.LaterCallbackOverwrites | NGOPlatformWeb/Services/EcpayService.cs:96-108 | after a successful callback, a later failing one for the same number turns the transaction Failed and the order 付款失敗 |
| Ecpay.EcpayService.constructor | NGOPlatformWeb/Services/EcpayService.cs:20-24 | the service starts with the given tables and configuration |
| Ecpay.EcpayService.CreatePayment | NGOPlatformWeb/Services/EcpayService.cs:26-76 | one transaction is appended; when the price fits the 32-bit cast it ends in Processing with the order number as trade number and the result is the signed form; when the cast overflows the call fails and the row stays Pending; the orders do not change |
| Ecpay.EcpayService.ProcessCallback | NGOPlatformWeb/Services/EcpayService.cs:78-117 | the new tables and the result are those Settle gives for the old tables |
| Achievements.TableWellFormed | NGOPlatformWeb/Services/AchievementService.cs:20-57 | the table has five entries; each key is its entry's code; the codes are distinct; the values enumerate in table order |
| Achievements.JoinedSound | NGOPlatformWeb/Services/AchievementService.cs:159-164 | every joined activity belongs to one of the donor's `registered` registrations |
| Achievements.JoinedComplete | NGOPlatformWeb/Services/AchievementService.cs:159-164 | every activity of one of the donor's `registered` registrations is joined |
| Achievements.JoinedIff | NGOPlatformWeb/Services/AchievementService.cs:159-164 | an activity is joined exactly when one of the donor's `registered` registrations has its id |
| Achievements.MeetsCondition | NGOPlatformWeb/Services/AchievementService.cs:121-132 | only the five defined codes can hold; an unknown code is false; `first_registration` holds exactly when the donor has a registration, whatever its status |
| Achievements.FirstCompletionIff | NGOPlatformWeb/Services/AchievementService.cs:157-166 | `first_completion` holds exactly when an activity of one of the donor's `registered` registrations is `completed` and ended before now |
| Achievements.CaseHelperIff | NGOPlatformWeb/Services/AchievementService.cs:195-204 | `case_helper` holds exactly when an activity of one of the donor's `registered` registrations targets `case` |
| Achievements.CategoriesIff | NGOPlatformWeb/Services/AchievementService.cs:168-180 | the categories `multi_category` counts are exactly those of the activities of the donor's `registered` registrations |
| Achievements.FinishedImpliesRegistered | NGOPlatformWeb/Services/AchievementService.cs:151-166 | a first completion implies a first registration |
| Achievements.RegularImpliesFirstCompletion | NGOPlatformWeb/Services/AchievementService.cs:157-193 | five finished activities imply a first completion |
| Achievements.MultiCategoryImpliesRegistered | NGOPlatformWeb/Services/AchievementService.cs:151-180 | three categories imply a first registration |
| Achievements.CaseHelperImpliesRegistered | NGOPlatformWeb/Services/AchievementService.cs:195-204 | a case activity implies a first registration |
| Achievements.ConditionImpliesRegistered | NGOPlatformWeb/Services/AchievementService.cs:121-204 | every achievement condition presupposes a registration |
| Achievements.HeldCodes | NGOPlatformWeb/Services/AchievementService.cs:69-72 | a code is listed exactly when the donor has a row with it |
| Achievements.AwardedIff | NGOPlatformWeb/Services/AchievementService.cs:75-83 | a code is awarded exactly when it is in the table, not held and its condition holds |
| Achievements.AwardedInTableOrder | NGOPlatformWeb/Services/AchievementService.cs:75-83 | awarded codes follow the table order |
| Achievements.AwardedDistinct | NGOPlatformWeb/Services/AchievementService.cs:75-83 | with distinct table codes, no code is awarded twice in a pass |
| Achievements.AwardRecords | NGOPlatformWeb/Services/AchievementService.cs:139-144 | one row per awarded code, for the donor, stamped with the clock |
| Achievements.AwardRecordsSnoc | NGOPlatformWeb/Services/AchievementService.cs:80 | awarding one more code appends one more row |
| Achievements.NewAwardsIff | NGOPlatformWeb/Services/AchievementService.cs:64-86 | a pass returns a code exactly when it is defined, not held and its condition holds |
| Achievements.NewAwardsOrdered | NGOPlatformWeb/Services/AchievementService.cs:75-83 | the returned codes are distinct and in table order |
| Achievements.AwardRecordsHeld | NGOPlatformWeb/Services/AchievementService.cs:77-81 | after the pass, the donor holds every code held before and every code returned |
| Achievements.SecondPassAwardsNothing | NGOPlatformWeb/Services/AchievementService.cs:69-83 | a second pass over unchanged data returns nothing |
| Achievements.UnregisteredEarnsNothing | NGOPlatformWeb/Services/AchievementService.cs:151-204 | a donor without registrations earns nothing |
| Achievements.EntryFor | NGOPlatformWeb/Services/AchievementService.cs:101-112 | the entry copies the definition; earned exactly when a row with the code exists; earned time present exactly when earned and taken from a row with the code; new exactly when earned in the last 24 hours |
| Achievements.EntryOrderIsTotalPreorder | NGOPlatformWeb/Services/AchievementService.cs:115 | earned-first then by name is a total preorder |
| Achievements.AchievementListCoversTable | NGOPlatformWeb/Services/AchievementService.cs:99-115 | one entry per definition: a permutation of the table's entries |
| Achievements.AchievementListEarned | NGOPlatformWeb/Services/AchievementService.cs:101-112 | every listed entry is earned exactly when a row has its code, and new exactly when that row is less than a day old |
| Achievements.AchievementListOrder | NGOPlatformWeb/Services/AchievementService.cs:115 | earned entries come first; entries of equal status are in name order |
| Achievements.AchievementService.constructor | NGOPlatformWeb/Services/AchievementService.cs:14-17 | the service starts with the given tables |
| Achievements.AchievementService.AwardAchievement | NGOPlatformWeb/Services/AchievementService.cs:137-148 | exactly one row is appended; the other tables are unchanged |
| Achievements.AchievementService.CheckAndAwardAchievements | NGOPlatformWeb/Services/AchievementService.cs:64-86 | the loop returns the pass's new codes and appends exactly their rows |
| Achievements.AchievementService.GetUserAchievements | NGOPlatformWeb/Services/AchievementService.cs:91-116 | the result is the sorted list built from the donor's rows, and no table changes |
| Auth.ValidatePassword | NGOPlatformWeb/Controllers/AuthController.cs:568-583 | the Google marker never validates; a `$2a$` value validates exactly when the verifier accepts; any other value validates exactly when it equals the input |
| Auth.HashIsNotMarker | NGOPlatformWeb/Controllers/AuthController.cs:571-580 | a fresh hash is not the marker and validates its password |
| Auth.Login | NGOPlatformWeb/Controllers/AuthController.cs:40-85 | a donor login succeeds exactly when the first donor account with the e-mail accepts; a case login only when that fails and the first case login accepts; a null case password faults; a sign-in carries the typed e-mail |
| Auth.UserLoginIgnoresCases | NGOPlatformWeb/Controllers/AuthController.cs:46-59 | when the donor account accepts, the case tables play no part |
| Auth.GoogleAccountRejectsPasswords | NGOPlatformWeb/Controllers/AuthController.cs:46-84 | a Google-created account never signs in with a typed password |
| Auth.NewUser | NGOPlatformWeb/Controllers/AuthController.cs:126-134 | the new row stores the hashed password, the default avatar and the form's e-mail, name and identity number |
| Auth.LoginAfterRegister | NGOPlatformWeb/Controllers/AuthController.cs:104-164 | a newly registered donor signs in as User with the registration password |
| Auth.GoogleUserName | NGOPlatformWeb/Controllers/AuthController.cs:462-463 | the name defaults to `Google 用戶`; a longer name is cut to exactly its 50-character prefix; a shorter one is kept |
| Auth.GoogleProfileImage | NGOPlatformWeb/Controllers/AuthController.cs:465-474 | the picture is cut to exactly its 255-character prefix; an empty or missing one becomes the default avatar |
| Auth.GoogleEmail | NGOPlatformWeb/Controllers/AuthController.cs:480-482 | the e-mail is cut to exactly its 100-character prefix; a shorter one is kept |
| Auth.GoogleNewUser | NGOPlatformWeb/Controllers/AuthController.cs:462-498 | the new account has the marker password, no phone, a `TEMP` identity number, the name, picture and e-mail as GoogleUserName, GoogleProfileImage and GoogleEmail give them, so `Google 用戶` without a name claim and the default avatar without a picture |
| Auth.IssueToken | NGOPlatformWeb/Controllers/AuthController.cs:209-245 | one token is appended exactly when the e-mail is known and has no live token; otherwise the table is unchanged |
| Auth.IssueTokenKeepsOneLive | NGOPlatformWeb/Controllers/AuthController.cs:219-245 | no e-mail ever holds two live tokens |
| Auth.ResetTokenLifetime | NGOPlatformWeb/Controllers/AuthController.cs:233-241 | the token is typed User exactly for donor e-mails, and is live for exactly fifteen minutes |
| Auth.LiveTokenIndex | NGOPlatformWeb/Controllers/AuthController.cs:311-314 | the lookup finds a live token with the text exactly when one exists |
| Auth.ResetPasswordPage | NGOPlatformWeb/Controllers/AuthController.cs:270-296 | an empty token goes to login; a token that is not live goes to the request page; a live one shows the form |
| Auth.SetUserPassword | NGOPlatformWeb/Controllers/AuthController.cs:323-333 | only the first donor account with the e-mail gets the new hash |
| Auth.SetCasePassword | NGOPlatformWeb/Controllers/AuthController.cs:334-344 | only the first case login with the e-mail gets the new hash |
| Auth.Reset | NGOPlatformWeb/Controllers/AuthController.cs:303-363 | a reset is accepted exactly when the token is live; a rejected one changes nothing; an accepted `User` token re-hashes the first donor account with its e-mail and a `Case` token the first case login with it, the other table untouched |
| Auth.ResetIsSingleUse | NGOPlatformWeb/Controllers/AuthController.cs:346-349 | after a successful reset, the same token is rejected at any later time |
| Auth.ResetFrame | NGOPlatformWeb/Controllers/AuthController.cs:322-349 | only the redeemed token changes, marked used at the reset time; a donor token leaves case logins alone, and any other type leaves donors alone |
| Auth.LoginAfterReset | NGOPlatformWeb/Controllers/AuthController.cs:322-333 | after a donor's reset, logging in with the new password succeeds |
| Auth.LoginAfterCaseReset | NGOPlatformWeb/Controllers/AuthController.cs:330-338 | after a case's reset, its case login accepts the new password and logging in with it succeeds |
| Auth.AuthController.constructor | NGOPlatformWeb/Controllers/AuthController.cs:23-29 | the controller starts with the given tables and hashing service |
| Auth.AuthController.SignIn | NGOPlatformWeb/Controllers/AuthController.cs:40-85 | no table changes; the outcome is the one Login gives |
| Auth.AuthController.Register | NGOPlatformWeb/Controllers/AuthController.cs:104-164 | a taken e-mail is reported before a taken identity number, and neither adds a row; otherwise exactly the new row is appended |
| Auth.AuthController.ExternalLoginCallback | NGOPlatformWeb/Controllers/AuthController.cs:392-565 | a failed authentication or a missing e-mail changes nothing; otherwise an unknown e-mail first appends the Google account, and the principal is the existing donor's id, name and e-mail, or the new account's, with role User |
| Auth.AuthController.ForgotPassword | NGOPlatformWeb/Controllers/AuthController.cs:201-264 | the token table becomes the one IssueToken gives; nothing else changes |
| Auth.AuthController.ResetPassword | NGOPlatformWeb/Controllers/AuthController.cs:303-363 | the tables and the result are those Reset gives |
| ViewModels.TotalDonated | NGOPlatformWeb/Models/ViewModels/UserPurchaseRecordsViewModel.cs:13 | 0 for no orders; non-negative when all prices are |
| ViewModels.TotalItems | NGOPlatformWeb/Models/ViewModels/UserPurchaseRecordsViewModel.cs:31 | 0 for no items; non-negative, and at least every single quantity, when quantities are non-negative |
| ViewModels.TotalItemsAppend | NGOPlatformWeb/Models/ViewModels/UserPurchaseRecordsViewModel.cs:31 | TotalItems is the sum of the quantities: one item counts its quantity, and two lists joined total the sum of their totals |
| ViewModels.IsEmergencyOrder | NGOPlatformWeb/Models/ViewModels/UserPurchaseRecordsViewModel.cs:32 | true exactly when some item is an emergency item |
| ViewModels.StatusDisplay | NGOPlatformWeb/Models/ViewModels/CaseActivityRegistrationsViewModel.cs:29-30 | one of two labels: 已報名 exactly when IsActive holds, 已取消 otherwise |
| ViewModels.CategoryDisplay | NGOPlatformWeb/Models/ViewModels/CaseActivityRegistrationsViewModel.cs:31-37 | the three short categories are spelled out as four-character names that extend them; any other category is unchanged |
| ViewModels.CategoryDisplayIdempotent | NGOPlatformWeb/Models/ViewModels/CaseActivityRegistrationsViewModel.cs:31-37 | displaying a displayed category changes nothing |
| ViewModels.UpcomingExcludesCompleted | NGOPlatformWeb/Models/ViewModels/CaseActivityRegistrationsViewModel.cs:27-28 | an activity that ends no earlier than it starts is never both upcoming and completed |
| Users.EmergencyImageIsFirstMatch | NGOPlatformWeb/Controllers/UserController.cs:414-431 | the image is that of the first keyword group found in the lower-cased name, or the default |
| Users.MedicalNamesGetSaline | NGOPlatformWeb/Controllers/UserController.cs:419-420 | any name containing 醫療 gets the saline image |
| Users.BandageNeedsFirstAidKit | NGOPlatformWeb/Controllers/UserController.cs:419-422 | the bandage image goes only to names containing 急救包, so the 醫療急救 keyword never decides |
| Users.FindNeed | NGOPlatformWeb/Controllers/UserController.cs:371 | the need found has the id; none is found exactly when no need has it |
| Users.EmergencyItem | NGOPlatformWeb/Controllers/UserController.cs:370-394 | the item is an emergency item with the record's name, quantity and unit price, and total equal to unit price times quantity |
| Users.DetailItem | NGOPlatformWeb/Controllers/UserController.cs:397-406 | the item is a regular item with the detail's quantity and unit price, total equal to unit price times quantity, the supply's name or 未知物資 and its image or `/images/default-supply.png` |
| Users.EmergencyItems | NGOPlatformWeb/Controllers/UserController.cs:369-395 | one priced emergency item per record, in order |
| Users.DetailItems | NGOPlatformWeb/Controllers/UserController.cs:397-406 | one priced regular item per detail, in order |
| Users.OrderItems | NGOPlatformWeb/Controllers/UserController.cs:367-406 | every item is priced; items are emergency items exactly for `emergency` orders; there is one item per emergency record or per detail accordingly |
| Users.OrderItemsProvenance | NGOPlatformWeb/Controllers/UserController.cs:367-406 | items of an emergency order come from its emergency records, and all other items from its details |
| Users.EmergencyItemImageRule | NGOPlatformWeb/Controllers/UserController.cs:372-383 | the need's non-empty image wins; otherwise the name-based image is used |
| Users.UserOrders | NGOPlatformWeb/Controllers/UserController.cs:337 | exactly the donor's orders |
| Users.OrderNewerOrSameIsTotalPreorder | NGOPlatformWeb/Controllers/UserController.cs:338 | newest-first by date is a total preorder |
| Users.UserOrdersNewestFirstSpec | NGOPlatformWeb/Controllers/UserController.cs:334-339 | the listing holds exactly the donor's orders, newest first |
| Users.OrderRecords | NGOPlatformWeb/Controllers/UserController.cs:357-407 | one record per order, in order |
| Users.PurchaseRecords | NGOPlatformWeb/Controllers/UserController.cs:354-408 | the user name defaults to 訪客; TotalOrders counts the donor's orders |
| Users.PurchaseRecordsFor | NGOPlatformWeb/Controllers/UserController.cs:315-331 | a page is produced exactly when the e-mail claim is present and names a donor |
| Users.PurchaseRecordsNewestFirst | NGOPlatformWeb/Controllers/UserController.cs:334-339 | every listed order is one of the donor's orders; they are listed newest first |
| Users.SumOfRecords | NGOPlatformWeb/Controllers/UserController.cs:357-362 | the records carry the orders' prices, so their sum is the orders' sum |
| Users.TotalDonatedCoversAllOrders | NGOPlatformWeb/Models/ViewModels/UserPurchaseRecordsViewModel.cs:13 | TotalDonated adds up every order of the donor, paid or not |
| Users.UserRegistrationCounts | NGOPlatformWeb/Controllers/UserController.cs:57-64 | active ≤ total; total is 0 exactly when the donor has no registration; active is positive exactly when one is `registered` |
| Users.UserRegistrations | NGOPlatformWeb/Controllers/UserController.cs:49-51 | exactly the donor's registrations |
| Users.RegistrationNewerOrSameIsTotalPreorder | NGOPlatformWeb/Controllers/UserController.cs:52 | newest-first by registration time is a total preorder |
| Users.UserRegistrationsNewestFirstSpec | NGOPlatformWeb/Controllers/UserController.cs:49-54 | the listing holds the donor's registrations only, as many as there are, newest first |
| Users.UserProfileStats | NGOPlatformWeb/Controllers/UserController.cs:47-81 | the recent lists hold at most five entries; the registration figures are the counts; TotalOrders counts the donor's orders |
| Users.PaidTotalAppend | NGOPlatformWeb/Controllers/UserController.cs:78-81 | the purchase total is 0 with no orders, and one more order adds its price exactly when it is the donor's and `已付款` |
| Users.RecentActivitiesAreNewest | NGOPlatformWeb/Controllers/UserController.cs:49-54 | the recent activities are the first five (or all) of the newest-first listing, none older than any left out |
| Users.RecentPurchasesAreNewest | NGOPlatformWeb/Controllers/UserController.cs:67-71 | the recent purchases are the first five (or all) of the donor's orders newest first, none older than any left out |
| Users.PaidAmountAtMostDonated | NGOPlatformWeb/Controllers/UserController.cs:78-81 | the profile's amount, over paid orders only, never exceeds the purchase page's TotalDonated when prices are non-negative |
| Users.UserRegistrationsPage | NGOPlatformWeb/Controllers/UserController.cs:262-311 | the name defaults to 訪客; active ≤ total; the rows are exactly the donor's registrations |
| Users.UserRegistrationsPageMatchesProfile | NGOPlatformWeb/Controllers/UserController.cs:291-292 | the page's total and active figures equal the profile's counts, and its rows are newest first |
| Users.EditProfileResult | NGOPlatformWeb/Controllers/UserController.cs:170-214 | an unknown donor or a failed upload changes nothing; otherwise only that donor changes: the name, phone and identity number from the form, the password re-hashed, and the image replaced only by a successful upload |
| Users.LoginAfterEdit | NGOPlatformWeb/Controllers/UserController.cs:196-203 | after a saved edit the donor signs in with the new password |
| Users.UploadResult | NGOPlatformWeb/Controllers/UserController.cs:219-257 | only a successful upload for a known donor succeeds, and it changes only that donor's image |
| Users.UserController.constructor | NGOPlatformWeb/Controllers/UserController.cs:22-28 | the controller starts with the given table and hashing service |
| Users.UserController.EditProfile | NGOPlatformWeb/Controllers/UserController.cs:170-214 | the table and outcome are those EditProfileResult gives |
| Users.UserController.UploadProfileImage | NGOPlatformWeb/Controllers/UserController.cs:219-257 | the table and result are those UploadResult gives |
| Purchase.DefaultImageIsFirstMatch | NGOPlatformWeb/Controllers/PurchaseController.cs:82-100 | the picture is that of the first keyword group found in the lower-cased name, or the fallback |
| Purchase.MedicalNamesGetMaskImage | NGOPlatformWeb/Controllers/PurchaseController.cs:86-93 | a name containing 醫療 never gets the medicine picture, and gets the mask picture unless a diaper keyword comes first |
| Purchase.NeedCardOf | NGOPlatformWeb/Controllers/PurchaseController.cs:36-45 | the card keeps the need's id, case and status; remaining equals needed equals the quantity; the name is the supply's, or 未知物資; the image is the supply's own when present, and otherwise the one its name (or the empty name) selects |
| Purchase.Index | NGOPlatformWeb/Controllers/PurchaseController.cs:19-79 | the first six needs (or all, if fewer) as cards; the first thirty regular supplies (or all, if fewer), in table order; a failed query leaves its list empty and sets only its own error |
| Purchase.IndexListsIndependent | NGOPlatformWeb/Controllers/PurchaseController.cs:28-65 | each list does not depend on whether the other query failed |
| Cases.ShoppingIndex | NGOPlatformWeb/Controllers/CaseController.cs:21-50 | a signed-in case is redirected; otherwise all supplies, or exactly those whose category name contains the filter |
| Cases.EmergencyRecord | NGOPlatformWeb/Controllers/CaseController.cs:92-101 | an emergency row is relabelled 訪談物資 and dated by its visit |
| Cases.RegularRecords | NGOPlatformWeb/Controllers/CaseController.cs:61-70 | one record per regular need, in order |
| Cases.EmergencyRecords | NGOPlatformWeb/Controllers/CaseController.cs:88-101 | one record per emergency need, in order |
| Cases.CasePurchaseList | NGOPlatformWeb/Controllers/CaseController.cs:51-107 | one unreceived row per 未領取 need, all with that status; received rows are 已領取 or 訪談物資 and are distinct |
| Cases.ReceivedIsUnion | NGOPlatformWeb/Controllers/CaseController.cs:72-103 | the received rows are exactly the records of the received regular needs and of the picked-up emergency needs |
| Cases.UnreceivedRecords | NGOPlatformWeb/Controllers/CaseController.cs:57-70 | the unreceived rows are exactly the records of the case's regular needs with status `未領取` |
| Cases.ReceivedAndUnreceivedDisjoint | NGOPlatformWeb/Controllers/CaseController.cs:57-103 | no row is both unreceived and received |
| Cases.ChangePasswordResult | NGOPlatformWeb/Controllers/CaseController.cs:168-185 | differing entries change nothing; an unknown login changes nothing; otherwise only the first login with the e-mail gets the new password exactly as typed |
| Cases.LoginAfterPasswordChange | NGOPlatformWeb/Controllers/CaseController.cs:176-181 | the stored plaintext password signs the case in |
| Cases.BlankPasswordBreaksLogin | NGOPlatformWeb/Controllers/CaseController.cs:170-181 | two empty entries store a null password, after which that case's login attempts fault |
| Cases.CaseController.constructor | NGOPlatformWeb/Controllers/CaseController.cs:16-19 | the controller starts with the given logins |
| Cases.CaseController.ChangePassword | NGOPlatformWeb/Controllers/CaseController.cs:168-185 | the logins and outcome are those ChangePasswordResult gives |
| Cases.CaseRows | NGOPlatformWeb/Controllers/CaseController.cs:128-130 | exactly the case's registrations |
| Cases.CaseRegistrationCounts | NGOPlatformWeb/Controllers/CaseController.cs:128-134 | active ≤ total; total is 0 exactly when the case has none; active is positive exactly when one is `registered` |
| Cases.NewerOrSameIsTotalPreorder | NGOPlatformWeb/Controllers/CaseController.cs:209 | newest-first by registration time is a total preorder |
| Cases.FindActivity | NGOPlatformWeb/Controllers/CaseController.cs:207 | the activity found has the id; none is found exactly when no activity has it |
| Cases.RegistrationItemOf | NGOPlatformWeb/Controllers/CaseController.cs:218-232 | the item keeps the registration's id, activity, status and time; the activity's name, description, location, dates, image, category and audience, each with its `??` default (未知活動, empty text, `DateTime.MinValue`, the default image) when the field or the activity is missing |
| Cases.RegistrationItems | NGOPlatformWeb/Controllers/CaseController.cs:218-232 | one item per registration, in order |
| Cases.CaseRegistrations | NGOPlatformWeb/Controllers/CaseController.cs:189-236 | an empty claim, or a login whose case row is missing, redirects to login; an e-mail without a case login faults; a page shows the case's name (or 個案) and its total is its number of items |
| Cases.ActiveItemsMatchRows | NGOPlatformWeb/Controllers/CaseController.cs:217-232 | the items' IsActive count equals the rows' `registered` count |
| Cases.RegistrationsPageConsistent | NGOPlatformWeb/Controllers/CaseController.cs:206-217 | the page's figures equal the profile's counts for the case; the active figure is the number of active items; items are newest first |
| Cases.RegistrationsPageItems | NGOPlatformWeb/Controllers/CaseController.cs:206-232 | the page lists exactly the signed-in case's registrations, each joined with its activity |
| Activities.ListedActivities | NGOPlatformWeb/Controllers/ActivityController.cs:19-30 | an activity is listed exactly when it is for cases and matches the category and keyword whenever they are given |
| Activities.CaseActivityIndex | NGOPlatformWeb/Controllers/ActivityController.cs:17-41 | the filters applied one after another give the single conjunctive filter |
| Activities.EmptyFiltersListAllCaseActivities | NGOPlatformWeb/Controllers/ActivityController.cs:22-30 | empty filters list every activity for cases |
| Activities.KeywordNarrows | NGOPlatformWeb/Controllers/ActivityController.cs:27-30 | a keyword never lists more |
| Activities.CaseSignupForm | NGOPlatformWeb/Controllers/ActivityController.cs:44-64 | NotFound exactly for an unknown id; otherwise the activity with that id and a `registered` registration of case 5 for it |
| Activities.ActivityController.constructor | NGOPlatformWeb/Controllers/ActivityController.cs:12-15 | the controller starts with the given registrations |
| Activities.ActivityController.CaseSignup | NGOPlatformWeb/Controllers/ActivityController.cs:68-97 | BadRequest exactly when the registration is missing, storing nothing; otherwise the registration is stamped with the clock and appended |
| Activities.SignupCounted | NGOPlatformWeb/Controllers/ActivityController.cs:76-81 | a stored sign-up adds one to its case's total, and one to the active figure exactly when it is `registered` |
| Text.ToLower | NGOPlatformWeb/Services/EcpayService.cs:132 | the result has the same length and no upper-case ASCII letter; an ASCII capital becomes its own small letter; other characters are kept |
| Text.ToUpper | NGOPlatformWeb/Services/EcpayService.cs:138 | the result has the same length and no lower-case ASCII letter; an ASCII small letter becomes its own capital; other characters are kept |
| Text.ContainsLower | NGOPlatformWeb/Controllers/UserController.cs:416-430 | a keyword without ASCII capitals still occurs after lower-casing |
| Text.Truncate | NGOPlatformWeb/Controllers/AuthController.cs:463 | the result is the prefix of exactly min(length, n) characters, so the whole text when it fits |
| Text.Coalesce | NGOPlatformWeb/Controllers/AuthController.cs:416-421 | the first present value of the chain, none exactly when all are missing |
| Text.Utf8Char | NGOPlatformWeb/Services/EcpayService.cs:137 | one to four bytes; ASCII is one byte, its code; anything else is several bytes of 0x80 or more |
| Text.Utf8OfAscii | NGOPlatformWeb/Services/EcpayService.cs:137 | ASCII text encodes to one byte per character |
| Text.NatToString | NGOPlatformWeb/Services/EcpayService.cs:48 | decimal digits, at least one, with no leading zero |
| Text.NatToStringRoundTrip | NGOPlatformWeb/Services/EcpayService.cs:48 | reading the digits back yields the number |
| Text.IntToStringRoundTrip | NGOPlatformWeb/Services/EcpayService.cs:48 | reading the text of `int.ToString()` back, sign included, gives the number |
| Text.TruncateToInt | NGOPlatformWeb/Services/EcpayService.cs:48 | the cast truncates toward zero |
| Text.CastToInt32 | NGOPlatformWeb/Services/EcpayService.cs:48 | the cast succeeds exactly when the price lies strictly between -2^31-1 and 2^31, and then gives the truncated value |
| Seqs.SortBySorted | NGOPlatformWeb/Services/EcpayService.cs:124 | a stable sort by a total preorder is sorted, and is a permutation of its input |
| Seqs.Union | NGOPlatformWeb/Controllers/CaseController.cs:87 | the union holds the elements of both sides, each once |
| Keywords.FirstMatch | NGOPlatformWeb/Controllers/UserController.cs:419-430 | the image is that of the first matching rule, or the fallback when no rule matches |

## Left out

- Persistence: Entity Framework, `SaveChanges`, `Include`/`Join` loading and database exceptions (the catch paths at ActivityController.cs:89-96, PurchaseController.cs:72-78, ActivityController.cs:37-40, EcpayService.cs:72-75 and 113-116, AuthController.cs:258-263 and 358-362). Each request is one atomic table update.
- `GeneratePaymentForm` (EcpayService.cs:142-156): HTML string building. CreatePayment returns the signed form fields instead.
- Ecpay.EcpayService.CreatePayment: on success the intermediate Pending row is visible only inside the call; the final state shows it in Processing. The overflow path is stated: the row stays Pending and no form is returned, standing for the rethrown exception.
- Ecpay.Settle: the callback's raw fields are stored as a map rather than their JSON text.
- Web plumbing is left out:
  - cookies, claims issuance, the Google OAuth challenge, `TempData`/`ViewBag`/`View` results and `Console.WriteLine` logging;
  - `ModelState` validation: requests are assumed to pass the data-annotation checks;
  - error messages, which appear only as outcome values.
- E-mail sending (`EmailService`) and image storage (`ImageUploadService`) are external services. An upload is an input: no file, failed, or uploaded with a path.
- MD5, BCrypt and `WebUtility.UrlEncode` internals are parameters. The model relies on two things: MD5 returns 16 bytes, and a fresh BCrypt hash carries the `$2a$` prefix and verifies its password.
- The culture-dependent string comparison of `OrderBy`/`ThenBy` is a parameter, assumed to be a total preorder where sortedness is proved.
- Text.ToLower, Text.ToUpper: only ASCII letters change case. The URL-encoded digest input is ASCII, and the image keywords are CJK, which have no case.
- Truncate: counts Unicode scalar values, whereas .NET `Length` and `Substring` count UTF-16 code units. A character above U+FFFF counts once here and twice in .NET, and a .NET cut can split a surrogate pair, which a Dafny string cannot hold.
- GoogleUserName: the 50-character cut counts Unicode scalar values, not UTF-16 code units (see Truncate), so a name with characters above U+FFFF can be kept longer than .NET keeps it.
- GoogleProfileImage: the 255-character cut counts Unicode scalar values, not UTF-16 code units (see Truncate).
- GoogleEmail: the 100-character cut counts Unicode scalar values, not UTF-16 code units (see Truncate).
- `Contains` and `==` on names are ordinal comparisons. The database collation used when the queries run on the server is not modelled.
- The clock: one value per request. Within one award pass every row carries the same time, whereas the source reads `DateTime.Now` at each insertion.
- The achievement hooks in Register, ExternalLoginCallback and UserProfile (their try/catch wrappers) are left out. CheckAndAwardAchievements itself is modelled.
- Display projections are left out: UserProfile's `ActivitySummary`/`PurchaseSummary`, CaseProfile (GET)'s `CaseActivitySummary`, and the `ActivityRegistrationItem` list of the donor's Registrations page. The donor's Registrations page is modelled with the registration rows themselves, newest first.
- The `Formatted*` and `QuantityText` view-model properties, and the `OrderSource`/`PaymentMethod`/`EmergencyNeedId` fields of the order records.
- CaseProfile (GET) is covered only by its registration counts (Cases.CaseRegistrationCounts). Its five recent activities and the case's own fields are not modelled.
- The unused `category` parameter of CasePurchaseList is not modelled. The hard-coded case ids 1 (CasePurchaseList) and 5 (CaseSignup GET) are constants.
- The merchant id, HashKey, HashIV and payment URL constants (EcpayService.cs:15-18) are configuration values passed to the service.
- The length limits the framework enforces on stored columns are not modelled. For example, the 18-character `TEMP` identity number of a Google account is longer than the 10 characters the identity column allows.
- Logout, the GET pages that only render a form, and `ExternalLogin`/`GoogleCallback` (OAuth redirects) are not modelled.
