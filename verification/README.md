# Order tracking: store, session and screen handlers

A Dafny model of the core of a small iOS order-tracking application. A user
registers and logs in, then creates, edits, lists and deletes orders that
belong to their account. The model covers four parts:

- the `Validator` predicates (`validator.dfy`);
- the `CoreDataManager` store of users and orders, as an immutable value
  (`store.dfy`, with the sort in `sorting.dfy`);
- the `UserManager` session: the in-memory current user plus the
  `UserDefaults` keys `isLoggedIn`, `currentUsername`, `rememberMe` and
  `savedUsername` (`session.dfy`);
- the action handlers of the screens, where the business rules live:
  registration (`register.dfy`), login (`login.dfy`), saving an order
  (`order_detail.dfy`, with trimming in `text.dfy`), the order list
  (`orders_list.dfy`) and the launch decision (`launch.dfy`).

Each handler is a pure function from the store and session state to a new
state and an outcome. `scenarios.dfy` states properties that span several
screens.

Modelling choices:

- Every Core Data object becomes a record with an `id`. The store keeps
  users and orders in insertion order, and an unsorted fetch returns them in
  that order. So `users.first` is the earliest matching user.
- Whether a Core Data fetch or `save()` throws is an argument (`fetchOk`,
  `saved`, or an `Io` pair). The application never rolls the context back. So
  after a failed save the inserted, changed or deleted object stays in the
  context, and the model's store changes in the same way. A relaunch reopens
  the same store, so it assumes that every pending change reached disk.
- `UserDefaults` is a map from key to a flag or a string.
  `bool(forKey:)` is false for a missing key.
- Totals are `real`. `Double(String)` is the argument
  `parse: string -> Option<real>`. Dates are integers, and
  `Date.distantFuture` is the constant `DistantFuture`.

Where the code disagrees with its own design, the model follows the code
and proves the disagreement:

- no screen calls `Validator`. Registration only requires non-empty fields,
  so one-character credentials are accepted
  (`RegisterViewController.ShortCredentialsAccepted`);
- the order form accepts a total of 0, but `isValidOrderTotal` requires
  more than 0 (`OrderDetailViewController.ZeroTotalAccepted`,
  `Validator.ZeroTotalIsInvalid`). The form does not check the phone format
  either (`OrderDetailViewController.PhoneFormatNotChecked`);
- login always persists `currentUsername`, whatever the remember-me switch
  says. So every login is restored at the next launch
  (`Scenarios.LoginRestoredAfterRelaunch`);
- username uniqueness is enforced only by the registration screen's lookup.
  If that lookup fails, a duplicate is stored
  (`RegisterViewController.FailedLookupAllowsDuplicate`).

## Model

| member | source | states |
|---|---|---|
| Validator.IsValidUsername | OrderManagemen/SwiftTracker/OrderManagementSystem/Helpers/Validator.swift:9-11 | valid iff at least 3 characters; the non-emptiness test is subsumed |
| Validator.IsValidPassword | OrderManagemen/SwiftTracker/OrderManagementSystem/Helpers/Validator.swift:16-18 | valid iff at least 6 characters |
| Validator.DoPasswordsMatch | OrderManagemen/SwiftTracker/OrderManagementSystem/Helpers/Validator.swift:25-27 | match iff the strings are equal code point by code point; Swift's canonical equivalence is not modelled (see Left out) |
| Validator.PasswordsMatchIsEquivalence | OrderManagemen/SwiftTracker/OrderManagementSystem/Helpers/Validator.swift:25-27 | matching is reflexive, symmetric and transitive |
| Validator.IsValidOrderNumber | OrderManagemen/SwiftTracker/OrderManagementSystem/Helpers/Validator.swift:32-34 | valid iff non-empty, with no trimming |
| Validator.IsValidCustomerName | OrderManagemen/SwiftTracker/OrderManagementSystem/Helpers/Validator.swift:39-41 | valid iff non-empty, with no trimming |
| Validator.IsValidAddress | OrderManagemen/SwiftTracker/OrderManagementSystem/Helpers/Validator.swift:46-48 | valid iff non-empty, with no trimming |
| Validator.IsValidPhoneNumber | OrderManagemen/SwiftTracker/OrderManagementSystem/Helpers/Validator.swift:53-57 | a scan that accepts iff the string has 10 to 15 characters, each an ASCII digit or '+' |
| Validator.PhonePatternExamples | OrderManagemen/SwiftTracker/OrderManagementSystem/Helpers/Validator.swift:53-57 | 10 digits, a leading '+', and a '+' in the middle match; 5 digits, a letter, or free text do not |
| Validator.IsValidOrderTotal | OrderManagemen/SwiftTracker/OrderManagementSystem/Helpers/Validator.swift:62-67 | false when parsing fails, otherwise true iff the parsed value is > 0 |
| Validator.ZeroTotalIsInvalid | OrderManagemen/SwiftTracker/OrderManagementSystem/Helpers/Validator.swift:62-67 | "0" parses but is rejected |
| CoreDataManager.CreateUser | OrderManagemen/SwiftTracker/OrderManagementSystem/Helpers/CoreDataManager.swift:30-46 | appends exactly one user with the given credentials and rememberMe false, with a fresh id; existing users and orders untouched; result is the save outcome |
| CoreDataManager.IsUsernameTaken | OrderManagemen/SwiftTracker/OrderManagementSystem/Helpers/CoreDataManager.swift:52-62 | true iff the fetch works and some stored user has exactly that username |
| CoreDataManager.AuthenticateUser | OrderManagemen/SwiftTracker/OrderManagementSystem/Helpers/CoreDataManager.swift:70-80 | a returned user is stored and matches both username and password; None iff the fetch fails or no user matches both |
| CoreDataManager.UpdateUserRememberMe | OrderManagemen/SwiftTracker/OrderManagementSystem/Helpers/CoreDataManager.swift:88-97 | only the rememberMe of the user with that id changes; orders, ids and usernames are kept |
| CoreDataManager.CreateOrder | OrderManagemen/SwiftTracker/OrderManagementSystem/Helpers/CoreDataManager.swift:111-133 | without a current user nothing changes and the result is false; otherwise one order holding the six values and owned by the current user is appended |
| CoreDataManager.UpdateOrder | OrderManagemen/SwiftTracker/OrderManagementSystem/Helpers/CoreDataManager.swift:146-160 | the order with that id gets the six values; every order keeps its id and owner; other orders and all users are unchanged |
| CoreDataManager.DeleteOrder | OrderManagemen/SwiftTracker/OrderManagementSystem/Helpers/CoreDataManager.swift:166-175 | the orders left are exactly the old ones without that id; users are unchanged; identity invariant kept |
| CoreDataManager.DeleteRemovesExactlyOne | OrderManagemen/SwiftTracker/OrderManagementSystem/Helpers/CoreDataManager.swift:166-170 | with distinct ids, deleting an existing order removes exactly one order |
| CoreDataManager.FetchOrdersForUser | OrderManagemen/SwiftTracker/OrderManagementSystem/Helpers/CoreDataManager.swift:181-191 | a permutation of the user's orders, sorted by due date ascending; [] when the fetch fails |
| UserManager.IsUserLoggedIn | OrderManagemen/SwiftTracker/OrderManagementSystem/Helpers/UserManager.swift:21-23 | the persisted flag; false when the key was never written |
| UserManager.SaveUserLogin | OrderManagemen/SwiftTracker/OrderManagementSystem/Helpers/UserManager.swift:26-32 | isLoggedIn becomes true; currentUsername becomes the cached user's name only when a user is cached; all other keys unchanged |
| UserManager.Logout | OrderManagemen/SwiftTracker/OrderManagementSystem/Helpers/UserManager.swift:35-40 | no cached user, isLoggedIn false, currentUsername removed, every other key (rememberMe, savedUsername) unchanged |
| UserManager.GetCurrentUser | OrderManagemen/SwiftTracker/OrderManagementSystem/Helpers/UserManager.swift:44-73 | a cached user is returned unchanged; otherwise a user is found iff the fetch works and a stored user has the persisted name, and is then cached; defaults never change |
| UserManager.GetCurrentUserIgnoresLoginFlag | OrderManagemen/SwiftTracker/OrderManagementSystem/Helpers/UserManager.swift:44-73 | the result does not depend on isLoggedIn |
| UserManager.LogoutThenNoCurrentUser | OrderManagemen/SwiftTracker/OrderManagementSystem/Helpers/UserManager.swift:35-50 | right after logout no user is resolved |
| RegisterViewController.CheckInput | OrderManagemen/SwiftTracker/OrderManagementSystem/ViewControllers/RegisterViewController.swift:141-160 | each error iff the earlier checks pass and its own fails: empty username, password, confirmation, then mismatch |
| RegisterViewController.RegisterButtonTapped | OrderManagemen/SwiftTracker/OrderManagementSystem/ViewControllers/RegisterViewController.swift:140-175 | the first failing check is reported with the store untouched; "already exists" iff the checks pass and the lookup finds the name; createUser runs only for a free name |
| RegisterViewController.MismatchLeavesStore | OrderManagemen/SwiftTracker/OrderManagementSystem/ViewControllers/RegisterViewController.swift:157-160 | differing passwords give PasswordsDoNotMatch and the same store |
| RegisterViewController.RegisterKeepsUsernamesUnique | OrderManagemen/SwiftTracker/OrderManagementSystem/ViewControllers/RegisterViewController.swift:163-169 | when the lookup works, unique usernames stay unique |
| RegisterViewController.FailedLookupAllowsDuplicate | OrderManagemen/SwiftTracker/OrderManagementSystem/ViewControllers/RegisterViewController.swift:163-169 | when the lookup fails, a taken name is registered again and uniqueness breaks |
| RegisterViewController.RegisteredCanAuthenticate | OrderManagemen/SwiftTracker/OrderManagementSystem/ViewControllers/RegisterViewController.swift:169 | after a successful registration, authenticating with the same credentials finds a user |
| RegisterViewController.ShortCredentialsAccepted | OrderManagemen/SwiftTracker/OrderManagementSystem/ViewControllers/RegisterViewController.swift:141-155 | "a"/"b" registers although the validator rejects both |
| RegisterViewController.ValidatorCredentialsPassChecks | OrderManagemen/SwiftTracker/OrderManagementSystem/ViewControllers/RegisterViewController.swift:141-160 | credentials the validator accepts (long enough and matching) always pass the screen's input checks |
| RegisterViewController.MessagesDistinct | OrderManagemen/SwiftTracker/OrderManagementSystem/ViewControllers/RegisterViewController.swift:141-174 | the six error texts are pairwise different |
| LoginViewController.CheckSavedCredentials | OrderManagemen/SwiftTracker/OrderManagementSystem/ViewControllers/LoginViewController.swift:148-154 | prefill (and switch on) iff a saved name exists and rememberMe is true; the prefill is that name |
| LoginViewController.RememberChoice | OrderManagemen/SwiftTracker/OrderManagementSystem/ViewControllers/LoginViewController.swift:168-173 | rememberMe becomes the switch; savedUsername is the typed name when on and absent when off; other keys unchanged |
| LoginViewController.LoginButtonTapped | OrderManagemen/SwiftTracker/OrderManagementSystem/ViewControllers/LoginViewController.swift:158-185 | empty fields or unknown credentials change nothing; success iff both fields are filled and a stored user matches both; success caches that user and persists isLoggedIn and currentUsername regardless of the switch |
| LoginViewController.LoginThenPrefill | OrderManagemen/SwiftTracker/OrderManagementSystem/ViewControllers/LoginViewController.swift:148-173 | after a login the next login screen prefills the name iff the switch was on |
| LoginViewController.PrefillSurvivesLogout | OrderManagemen/SwiftTracker/OrderManagementSystem/ViewControllers/LoginViewController.swift:148-154 | logout does not change the prefill |
| LoginViewController.MessagesDistinct | OrderManagemen/SwiftTracker/OrderManagementSystem/ViewControllers/LoginViewController.swift:160-184 | the two error texts are different |
| OrderDetailViewController.CheckForm | OrderManagemen/SwiftTracker/OrderManagementSystem/ViewControllers/OrderDetailViewController.swift:322-347 | the first failing field in the order number, name, address, phone, total sequence is reported; accepted fields are the trimmed texts and a parsed total of at least 0 |
| OrderDetailViewController.BlankFieldRejected | OrderManagemen/SwiftTracker/OrderManagementSystem/ViewControllers/OrderDetailViewController.swift:322-337 | a whitespace-only field is rejected as empty |
| OrderDetailViewController.AcceptedIff | OrderManagemen/SwiftTracker/OrderManagementSystem/ViewControllers/OrderDetailViewController.swift:322-347 | accepted iff every trimmed field is non-empty and the total parses to at least 0 |
| OrderDetailViewController.AcceptedFieldsPassValidator | OrderManagemen/SwiftTracker/OrderManagementSystem/ViewControllers/OrderDetailViewController.swift:322-332 | the order number, customer name and address the form accepts satisfy the validator's rules |
| OrderDetailViewController.BlankOrderNumberPassesValidator | OrderManagemen/SwiftTracker/OrderManagementSystem/ViewControllers/OrderDetailViewController.swift:322-325 | a non-empty order number of blanks satisfies the validator but the form rejects it as empty |
| OrderDetailViewController.TotalCheckAgainstValidator | OrderManagemen/SwiftTracker/OrderManagementSystem/ViewControllers/OrderDetailViewController.swift:340-347 | with no text field blank, a total the validator accepts passes the form, and the form accepts a total the validator rejects iff it parses to 0 |
| OrderDetailViewController.FilledFieldsSurviveTrim | OrderManagemen/SwiftTracker/OrderManagementSystem/ViewControllers/OrderDetailViewController.swift:322-340 | a text field that is not all whitespace is non-empty after trimming |
| OrderDetailViewController.MessagesDistinct | OrderManagemen/SwiftTracker/OrderManagementSystem/ViewControllers/OrderDetailViewController.swift:322-346 | the six validation texts are pairwise different |
| OrderDetailViewController.Commit | OrderManagemen/SwiftTracker/OrderManagementSystem/ViewControllers/OrderDetailViewController.swift:349-385 | a rejection reaches no store operation; editing updates only the edited order, keeping every id and owner; a new order is appended with the current user as owner, or nothing happens without one; Saved (the delegate call) iff the store operation returned true |
| OrderDetailViewController.SaveButtonTapped | OrderManagemen/SwiftTracker/OrderManagementSystem/ViewControllers/OrderDetailViewController.swift:318-390 | a rejected form touches nothing; an accepted one updates the edited order or creates a new one; Saved (the delegate call) iff the store operation returned true |
| OrderDetailViewController.SaveKeepsOwners | OrderManagemen/SwiftTracker/OrderManagementSystem/ViewControllers/OrderDetailViewController.swift:353-374 | for any check result, saving never changes an existing order's id or owner, and an added order belongs to the current user |
| OrderDetailViewController.ZeroTotalAccepted | OrderManagemen/SwiftTracker/OrderManagementSystem/ViewControllers/OrderDetailViewController.swift:322-347 | with no text field blank, a total whose trimmed text parses to 0 is accepted and saved as 0, with the other fields trimmed |
| OrderDetailViewController.PhoneFormatNotChecked | OrderManagemen/SwiftTracker/OrderManagementSystem/ViewControllers/OrderDetailViewController.swift:334-338 | any non-blank phone text gives the same verdict; only the saved phone changes |
| OrdersViewController.FetchOrders | OrderManagemen/SwiftTracker/OrderManagementSystem/ViewControllers/OrdersViewController.swift:112-128 | empty without a current user; otherwise a permutation of the store's fetch, holding exactly the current user's orders, sorted by due date with a missing date as distantFuture |
| OrdersViewController.MissingDueDatesLast | OrderManagemen/SwiftTracker/OrderManagementSystem/ViewControllers/OrdersViewController.swift:124 | after an order without a due date only undated orders or orders dated at or after distantFuture follow |
| OrdersViewController.Display | OrderManagemen/SwiftTracker/OrderManagementSystem/ViewControllers/OrdersViewController.swift:130-132 | rows and the header's total both equal the list length; the empty label is hidden iff there are rows |
| OrdersViewController.DisplayOfFetch | OrderManagemen/SwiftTracker/OrderManagementSystem/ViewControllers/OrdersViewController.swift:112-132 | without a current user or after a failed fetch the table is empty and the label shown; otherwise one row per order the user owns, the label hidden iff there is one |
| OrdersViewController.DeleteOrderAlert | OrderManagemen/SwiftTracker/OrderManagementSystem/ViewControllers/OrdersViewController.swift:158-185 | Cancel changes nothing; Delete deletes; the list is refetched only when the save succeeded and then holds the user's remaining orders |
| OrdersViewController.DidSaveOrder | OrderManagemen/SwiftTracker/OrderManagementSystem/ViewControllers/OrdersViewController.swift:271-273 | the refetched list holds exactly the current user's orders, sorted |
| OrdersViewController.LogoutButtonTapped | OrderManagemen/SwiftTracker/OrderManagementSystem/ViewControllers/OrdersViewController.swift:143-150 | the session ends: no cached user, not logged in, no persisted username |
| SceneDelegate.WillConnect | OrderManagemen/Delegates/SceneDelegate.swift:7-33 | no defaults are written; not logged in gives the login screen without a lookup; the orders screen iff logged in and a user is restored, which is then cached; otherwise login with the flag kept |
| Scenarios.LogoutPreventsRestore | OrderManagemen/SwiftTracker/OrderManagementSystem/Helpers/UserManager.swift:35-40 | after logout no user resolves, and launch, in the same process or after a relaunch, shows the login screen |
| Scenarios.LoginRestoredAfterRelaunch | OrderManagemen/SwiftTracker/OrderManagementSystem/ViewControllers/LoginViewController.swift:166-177 | after any successful login a relaunch restores a user with that name and shows the orders screen, even with the switch off; the relaunch reopens the same store, so it assumes every pending change was saved (see Left out) |
| Scenarios.RegisterThenLogin | OrderManagemen/SwiftTracker/OrderManagementSystem/ViewControllers/RegisterViewController.swift:169 | logging in with just-registered credentials succeeds and yields a user with that name |
| Scenarios.SecondRegistrationRejected | OrderManagemen/SwiftTracker/OrderManagementSystem/ViewControllers/RegisterViewController.swift:163-166 | registering the same name again is refused with the store unchanged |
| Scenarios.SavedOrderIsListed | OrderManagemen/SwiftTracker/OrderManagementSystem/ViewControllers/OrderDetailViewController.swift:318-377 | a form with no blank field and a trimmed total parsing to at least 0 creates one order for the logged-in user, and it appears in the list refetched by didSaveOrder |
| Scenarios.DeletedOrderIsUnlisted | OrderManagemen/SwiftTracker/OrderManagementSystem/ViewControllers/OrdersViewController.swift:164-173 | after a confirmed, saved deletion the order is gone from the list and the user's other orders remain |
| Sorting.SortBy | OrderManagemen/SwiftTracker/OrderManagementSystem/ViewControllers/OrdersViewController.swift:124 | the result is a permutation of the input, sorted by any total preorder |
| Text.TrimEmptyIffAllWhitespace | OrderManagemen/SwiftTracker/OrderManagementSystem/ViewControllers/OrderDetailViewController.swift:322 | trimming gives "" iff the text is all whitespace |
| Text.TrimIsInnerSlice | OrderManagemen/SwiftTracker/OrderManagementSystem/ViewControllers/OrderDetailViewController.swift:322 | the trimmed text is a slice of the input with only whitespace cut away, and it neither starts nor ends with whitespace |
| Text.TrimIdempotent | OrderManagemen/SwiftTracker/OrderManagementSystem/ViewControllers/OrderDetailViewController.swift:322 | trimming twice is trimming once |

## Left out

- UIKit presentation is not modelled: layout, labels, alerts, navigation, keyboard handling, the table cell and the formatting helpers. The 3-second timer that hides errors is also left out.
- Core Data mechanics are not modelled. This covers the `NSEntityDescription` lookup that could return nil, the `fatalError` in `init`, and the `AppDelegate` guard inside `getCurrentUser`. The entity descriptions and the app delegate always exist in the application.
- `UserDefaults.synchronize` and `sceneDidEnterBackground`'s `saveContext` are left out. The model keeps one store across a relaunch and does not separate the unsaved context from what is on disk.
- Floating point, `Double(String)` parsing and `%.2f`/`DateFormatter` output are left out. Parsing is an argument, so NaN and infinities are not modelled.
- Validator.IsValidUsername: counts Unicode scalar values, while Swift's `count` counts grapheme clusters, so a name with combining marks can be valid in the model and too short in the application.
- Validator.IsValidPassword: counts Unicode scalar values, while Swift's `count` counts grapheme clusters, for the same reason.
- Validator.DoPasswordsMatch: compares code point by code point. Swift's `==` on strings compares up to Unicode canonical equivalence, so "\u{E9}" and "e\u{301}" match in the application and not in the model. Normalisation is not modelled.
- RegisterViewController.CheckInput: decides the mismatch by code-point inequality where Swift's `!=` uses canonical equivalence. A password and a confirmation that differ only in normalisation are rejected with PasswordsDoNotMatch here, while the application goes on to create the account.
- Scenarios.LoginRestoredAfterRelaunch: the relaunched app sees the store as it was, including changes whose `save()` failed. In the application a user whose creation was never saved is gone after a relaunch, unless a later save wrote it. The lemma therefore assumes that every pending change was saved.
- CoreDataManager.FetchOrdersForUser: an order without a due date is placed first, as the SQLite store orders NULL. The orders list sorts again, so this placement never shows.
- CoreDataManager.AuthenticateUser: "first" means first in insertion order. Core Data does not document the order of an unsorted fetch. The same applies to GetCurrentUser.
- Sorting.SortBy: it is a stable insertion sort. The application's `sort` and sort descriptor make no stability promise, so the model only relies on permutation and sortedness.
- UpdateOrder and DeleteOrder take the order's id, not a managed object. An order the store no longer holds is therefore left unchanged instead of being re-inserted.
- Registration has no access to the session, so it cannot change `currentUser` or any defaults key; this holds by construction rather than by a lemma.
