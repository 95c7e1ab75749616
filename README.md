# Portfolio app: a verified model of its rules

This project models the decision rules and data operations of a small
portfolio application. It covers both sides of the app.

The Express/Prisma back end:
- the authenticator (`/auth/signup`, `/auth/signin`) over a profile table keyed by e-mail;
- the access guard that protects the mutating routes;
- the project routes: listing with a skill filter, creation, and creation from a GitHub URL;
- the profile routes: first profile, and the upsert keyed by `email || "unique-default"`;
- the skill routes: every skill, and the group-by-name leaderboard.

The React front end:
- the pagination of the project list and of the top-skills list;
- the profile editor and its comma-separated skills line;
- the demo data and its skill search;
- the sign-in/sign-up form;
- the session context over state and the two browser storage keys.

Layout:
- Mutable stores and components are classes whose methods change their fields:
  - the profile table and the project table (`Store`);
  - the components `ProjectsView`, `TopSkillsView` and `ProfileView`;
  - the form `AuthPage`;
  - the session `AuthContext`.
- Pure rules are functions with named results. Properties that relate several
  calls are lemmas.
- JavaScript string and array behaviour is written out in Dafny terms. This
  covers `split`, `join`, `trim`, `toLowerCase`, `includes`, `replace` with a
  string pattern, `slice` with its index clamping, and `Math.ceil`. It lives
  in the modules `Text` and `Pagination`.
- bcrypt and JSON Web Tokens (RFC 7519) are symbolic terms:
  - `Hash(password, 10)` is a digest that only `Matches` looks into;
  - `Sign(claims, secret, now)` is a token that carries its claims, its issue time `now` (`iat`) and its expiry seven days later (`exp`). The clock reading `now` is an input of the handlers.
- Every back-end handler takes a `storeFails` flag. It stands for the database
  call throwing. The handler then answers 500 with its fixed message and
  leaves the tables as they were.
- Request fields are strings, with an absent field read as `""`. Both are falsy
  to the guards. The one exception is `POST /profile`, where an absent field and
  an empty one behave differently (`Option<string>`).

## Model

| member | source | states |
|---|---|---|
| Text.Split | backend/src/routes/project.ts:85 | `split` on one character gives one more piece than there are separators, no piece contains the separator, and the first piece is the text up to the first separator |
| Text.SplitWithoutSeparator | backend/src/middleware.ts:19 | a string without the separator splits into itself alone |
| Text.SplitAtSeparator | backend/src/middleware.ts:19 | for a separator-free head followed by the separator, the head is the first piece and the rest splits on its own |
| Text.SplitConcat | backend/src/routes/project.ts:85 | splitting `a`, separator, `b` gives the pieces of `a` followed by the pieces of `b` |
| Text.JoinSplit | frontend/src/components/Profile.tsx:86 | joining the pieces of a split with the separator gives back the original string |
| Text.SplitJoin | frontend/src/components/Profile.tsx:86 | splitting a join of separator-free pieces gives back exactly those pieces |
| Text.LocalPart | backend/src/routes/auth.ts:42 | `email.split("@")[0]` is a prefix of the e-mail without `@` that stops at the first `@` or at the end |
| Text.NameOrLocalPart | backend/src/routes/auth.ts:42 | `name \|\| email.split("@")[0]`: a non-empty name is kept; otherwise the result is an `@`-free prefix of the e-mail |
| Text.Utf16Length | backend/src/routes/auth.ts:22 | `password.length` counts UTF-16 code units, one or two per character, so it is between the character count and twice that |
| Text.Or | backend/src/routes/project.ts:54-55 | `s \|\| fallback`: the string when non-empty, else the fallback |
| Text.TrimStart | frontend/src/components/Profile.tsx:86 | the result is a suffix that does not start with white space, and only white space was cut off |
| Text.TrimEnd | frontend/src/components/Profile.tsx:86 | the result is a prefix that does not end with white space, and only white space was cut off |
| Text.Trim | frontend/src/components/Profile.tsx:86 | the result has no white space at either end and is the input with white space cut from both ends |
| Text.TrimTrimmed | frontend/src/components/Profile.tsx:86 | trimming a string with no surrounding white space leaves it unchanged |
| Text.TrimLeadingSpace | frontend/src/components/Profile.tsx:86 | a leading space makes no difference to the trimmed result |
| Text.Lower | frontend/src/mockData.ts:83 | `toLowerCase` keeps the length and lowers each character |
| Text.LowerIdempotent | frontend/src/mockData.ts:83 | lowering twice is lowering once |
| Text.ContainsEmpty | frontend/src/mockData.ts:83 | every string includes the empty string |
| Text.ContainsTransitive | frontend/src/mockData.ts:83 | a substring of a substring is a substring |
| Text.LowerKeepsContains | frontend/src/mockData.ts:83 | if `sub` occurs in `s`, the lowered `sub` occurs in the lowered `s` |
| Text.IndexOf | backend/src/routes/project.ts:86 | -1 only when the pattern does not occur; otherwise a position where it occurs, with no earlier occurrence |
| Text.IndexOfAbsent | backend/src/routes/project.ts:86 | the search gives -1 exactly when the pattern does not occur |
| Text.IndexOfFirst | backend/src/routes/project.ts:86 | the earliest position where the pattern occurs is the one the search finds |
| Text.ReplaceFirst | backend/src/routes/project.ts:86 | `replace` with a string pattern: the text is unchanged when the pattern is absent; otherwise the first occurrence, and only it, is exchanged for the replacement, with the text around it kept |
| Text.ReplaceAt | backend/src/routes/project.ts:86 | where the pattern occurs at `i` and nowhere earlier, `replace` gives the text before `i`, the replacement, then the text after that occurrence |
| Text.StripGitSuffix | backend/src/routes/project.ts:86 | for a name without `.git`, `name.git` becomes `name` |
| Text.ReplaceHitsInnerGit | backend/src/routes/project.ts:86 | a repository named `user.github.io` becomes `userhub.io`, because the first `.git` is inside `.github` |
| Text.FirstGitInPagesRepo | backend/src/routes/project.ts:86 | in `user.github.io` (user without `.`), the first `.git` starts right after the user name |
| Store.RenameKeepsIndexed | backend/src/routes/profile.ts:38 | replacing a row by one whose e-mail is its own or free keeps every row under its own e-mail and every key listed once in table order |
| Store.ProfileTable.FindFirst | backend/src/routes/profile.ts:12-19 | `findFirst`: none exactly when the table is empty, otherwise a stored row; the model picks the first in its own table order |
| Store.ProfileTable.Create | backend/src/routes/auth.ts:39-45 | `create` adds the row under its e-mail, last in table order, and keeps the table indexed |
| Store.ProfileTable.Update | backend/src/routes/profile.ts:38 | `update` replaces the row under the key, moves it to its new e-mail, keeps its place in the model's table order and keeps the table indexed |
| Store.ProjectTable.Create | backend/src/routes/project.ts:51-57 | `create` appends the project and changes nothing else |
| AuthRoutes.SessionBody | backend/src/routes/auth.ts:48-59 | the token's claims are `{userId: id, email}`, it is signed with the secret, issued now and expires seven days later, and the `user` carries only id, e-mail and name |
| AuthRoutes.NewAccount | backend/src/routes/auth.ts:36-45 | the stored profile has the given e-mail, the name or the e-mail's local part, and the hash of the password at cost 10, never the password |
| AuthRoutes.Signup | backend/src/routes/auth.ts:13-65 | guards in order: a missing field gives 400, then a short password gives 400, then a 500 on a store failure, then a taken e-mail gives 409, each leaving the table unchanged; otherwise exactly one row is added and a 201 carries a token and the public user |
| AuthRoutes.Signin | backend/src/routes/auth.ts:71-114 | only presence is checked (400), no length; an unknown e-mail, a profile without a password and a wrong password all give the same 401; a match gives 200 with a token and the public user; the table cannot change |
| AuthRoutes.SignupThenSignin | backend/src/routes/auth.ts:13-114 | after a successful signup, signing in with the same credentials succeeds for the same user with the same claims; the two tokens differ only in issue and expiry time, and are equal exactly when both are signed in the same second |
| AccessGuard.BearerToken | backend/src/middleware.ts:19 | the token is the second space-separated field, or `""` when the header has no space; it never contains a space |
| AccessGuard.Guard | backend/src/middleware.ts:8-32 | `next()` is called exactly when the header is present and non-empty and the verified token is an object with `userId`; every rejection is the same 403 "Unauthorized" |
| AccessGuard.TokenAfterAnyScheme | backend/src/middleware.ts:19 | for `<scheme> <token>` the token is extracted whatever the first word is, so the `Bearer` of section 2.1 of RFC 6750 is not checked |
| AccessGuard.TokenIgnoresTrailingFields | backend/src/middleware.ts:19 | whatever follows a second space is ignored |
| AccessGuard.AnyUserIdPasses | backend/src/middleware.ts:22-28 | the guard is stateless and blind to the claim's value: any two payloads that both carry a `userId` get the same decision |
| ProjectRoutes.WithSkill | backend/src/routes/project.ts:13-24 | exactly the projects with a linked skill whose name matches, in the model's table order |
| ProjectRoutes.ListProjects | backend/src/routes/project.ts:12-25 | an absent or empty query returns every project; otherwise exactly the projects with a matching linked skill, in the model's table order |
| ProjectRoutes.GetProjects | backend/src/routes/project.ts:8-37 | 200 with the case-sensitive filtered list, or 500 "Failed to fetch projects" on a store failure |
| ProjectRoutes.InsensitiveIgnoresQueryCase | backend/dist/routes/project.js:20 | with `mode: "insensitive"`, two queries equal up to case list the same projects |
| ProjectRoutes.WithSkillIgnoresQueryCase | backend/dist/routes/project.js:20 | the insensitive filter gives the same list for two queries equal up to case |
| ProjectRoutes.CreateProject | backend/src/routes/project.ts:43-69 | a missing title or profileId gives 400 and a store failure gives 500, neither creating anything; otherwise one project is appended, with `description` defaulting to `""` and `work` to `"Personal Project"` |
| ProjectRoutes.ParseGithubUrl | backend/src/routes/project.ts:85-87 | the owner is missing exactly when the URL has no `/`, and a present owner contains no `/` |
| ProjectRoutes.ParseLastTwo | backend/src/routes/project.ts:85-87 | the second-to-last and last `/`-separated parts are the owner and the repository, the latter with its first `.git` removed |
| ProjectRoutes.ParseRepositoryUrl | backend/src/routes/project.ts:85-87 | `…/owner/name` and `…/owner/name.git` both parse to that owner and name |
| ProjectRoutes.TrailingSlashEmptiesRepo | backend/src/routes/project.ts:85-86 | a URL ending in `/` gives an empty repository name |
| ProjectRoutes.GithubProjectFromRepositoryUrl | backend/src/routes/project.ts:89-102 | the project from a repository URL is titled by the name, described as `GitHub project: owner/name`, of work "Open Source", with one `github` link to the URL |
| ProjectRoutes.CreateFromGithub | backend/src/routes/project.ts:76-115 | a missing URL or profileId gives 400 and a store failure gives 500, neither creating anything; otherwise the project built from the URL is appended |
| ProfileRoutes.GetProfile | backend/src/routes/profile.ts:10-26 | 200 with a stored profile (the first in the model's table order), `null` exactly for an empty table, or 500 on a store failure |
| ProfileRoutes.UpsertKey | backend/src/routes/profile.ts:37 | the lookup key is the submitted e-mail, or `"unique-default"` when it is absent or empty |
| ProfileRoutes.Upsert | backend/src/routes/profile.ts:36-46 | an existing row under the key has only its name and e-mail overwritten, by the fields present; a missing key creates `{name, email}`; a unique or required-field violation is a rejection |
| ProfileRoutes.UpsertTouchesOneRow | backend/src/routes/profile.ts:36-46 | every other row keeps its key and value, the table stays keyed by e-mail, and a created row is the only new key |
| ProfileRoutes.UpsertIdempotent | backend/src/routes/profile.ts:36-40 | repeating a successful request with a non-empty e-mail updates the same row to the same value and leaves the table as the first request left it |
| ProfileRoutes.SaveProfile | backend/src/routes/profile.ts:31-53 | the table becomes what the upsert decides and the answer is the saved profile, or 500 "Failed to save profile" with the table unchanged |
| SkillRoutes.GetSkills | backend/src/routes/skill.ts:7-15 | every skill record, or 500 "Failed to fetch skills" |
| SkillRoutes.OccurrencesZero | backend/src/routes/skill.ts:20-22 | a name is counted zero times exactly when no record carries it |
| SkillRoutes.Bump | backend/src/routes/skill.ts:20-22 | counting one more record of a name keeps names distinct, adds the name if new, raises its count by one, leaves every other group alone and raises the total by one |
| SkillRoutes.Tally | backend/src/routes/skill.ts:20-22 | one group per distinct name, each count the number of records with that name, counts summing to the number of records |
| SkillRoutes.Insert | backend/src/routes/skill.ts:23-27 | inserting into a list ordered by count keeps it ordered, and the result is the old list plus exactly that group, as a multiset |
| SkillRoutes.SortByCount | backend/src/routes/skill.ts:23-27 | the result is a permutation of the groups, as a multiset, in non-increasing count order |
| SkillRoutes.Top | backend/src/routes/skill.ts:20-28 | one entry per distinct name, each count the number of records with that name, non-increasing counts, summing to the number of records |
| SkillRoutes.GetTopSkills | backend/src/routes/skill.ts:18-35 | 200 with the grouped list, or 500 "Failed to fetch top skills" |
| SkillRoutes.TopCountsPositive | backend/src/routes/skill.ts:20-22 | every group holds at least one record |
| Pagination.TotalPages | frontend/src/components/Projects.tsx:47 | `Math.ceil(n / per)`: zero only for no items, enough pages to hold them all, and the last page is not empty |
| Pagination.TotalPagesMonotone | frontend/src/components/Projects.tsx:43-47 | more items never mean fewer pages |
| Pagination.SliceIndex | frontend/src/components/Projects.tsx:49 | a `slice` position is clamped into the list, and an in-range position is kept |
| Pagination.Slice | frontend/src/components/Projects.tsx:49 | `slice` with in-range bounds is the sub-list between them |
| Pagination.PageContents | frontend/src/components/Projects.tsx:48-49 | an existing page holds the `per` items from `(page - 1) * per`, cut only at the end of the list, and holds between 1 and `per` items |
| Pagination.PagePastEnd | frontend/src/components/Projects.tsx:48-49 | a page past the last is empty |
| Pagination.PagesPrefix | frontend/src/components/Projects.tsx:48-49 | the first `k` pages are the first `k * per` items |
| Pagination.PagesCoverList | frontend/src/components/TopSkills.tsx:45-48 | all pages, one after the other, give back the whole list in order |
| Client.ErrorText | frontend/src/components/Projects.tsx:32 | a thrown `Error`'s message, otherwise the fallback text |
| ProjectsView.ProjectLink | frontend/src/components/Projects.tsx:57-63 | the first link's URL, or `#` without links |
| ProjectsView.ProjectSkills | frontend/src/components/Projects.tsx:65-71 | the linked skills' names, same length and order |
| ProjectsView.GithubProjectLinksToUrl | frontend/src/components/Projects.tsx:57-63 | a project created from a GitHub URL links to that URL |
| ProjectsView.FilterAgreesWithShownSkills | frontend/src/components/Projects.tsx:65-71 | the server's skill filter keeps a project exactly when the query is among the skill names the card shows |
| ProjectsView.ProjectsView.constructor | frontend/src/components/Projects.tsx:22-41 | starts on page 1 with the fetched projects, or none and the error text |
| ProjectsView.ProjectsView.PageCount | frontend/src/components/Projects.tsx:47 | zero pages only for no projects; more than one exactly when there are more than three projects |
| ProjectsView.ProjectsView.ShowsPagination | frontend/src/components/Projects.tsx:125 | the page selector appears exactly when there are more than three projects |
| ProjectsView.ProjectsView.Visible | frontend/src/components/Projects.tsx:48-49 | the current page's window of up to three projects, never empty while there are projects |
| ProjectsView.ProjectsView.HandlePageChange | frontend/src/components/Projects.tsx:51-55 | moves only to an existing page, otherwise nothing changes; the current page stays valid |
| ProjectsView.ProjectsView.HandleProjectAdded | frontend/src/components/Projects.tsx:43-45 | appends the project, keeps the others and the page, and the page stays valid |
| TopSkillsView.DisplayedCount | frontend/src/components/TopSkills.tsx:69 | `_count \|\| count \|\| 0`: the first truthy count, zero exactly when neither is truthy |
| TopSkillsView.ShownCountIsOccurrences | frontend/src/components/TopSkills.tsx:69 | for the groups the server sends, the number shown is the number of records with that name |
| TopSkillsView.TopSkillsView.constructor | frontend/src/components/TopSkills.tsx:9-30 | the fetched groups and a reset to page 1, or none and the error text |
| TopSkillsView.TopSkillsView.PageCount | frontend/src/components/TopSkills.tsx:45 | zero pages only for no groups; more than one exactly when there are more than ten |
| TopSkillsView.TopSkillsView.Visible | frontend/src/components/TopSkills.tsx:46-48 | the current page's window of up to ten groups, never empty while there are groups |
| TopSkillsView.TopSkillsView.GoToNextPage | frontend/src/components/TopSkills.tsx:50-54 | one page on only before the last page, otherwise no change; the page stays valid |
| TopSkillsView.TopSkillsView.GoToPreviousPage | frontend/src/components/TopSkills.tsx:56-60 | one page back only after the first, otherwise no change; the page stays valid |
| TopSkillsView.TopSkillsView.NextThenPrevious | frontend/src/components/TopSkills.tsx:50-60 | next then previous returns to the starting page when there was a next page |
| ProfileView.ApplyEdit | frontend/src/components/Profile.tsx:79-83 | the edited field takes the new value and every other field stays |
| ProfileView.ApplyEditIdempotent | frontend/src/components/Profile.tsx:79-83 | applying the same edit twice is applying it once |
| ProfileView.TrimEach | frontend/src/components/Profile.tsx:86 | `.map(s => s.trim())`: same length, each piece trimmed |
| ProfileView.DropEmpty | frontend/src/components/Profile.tsx:86 | `.filter(s => s)`: every non-empty string, as often as it occurs (equal multisets once the empty ones are removed), and in their order |
| ProfileView.TrimKeepsOut | frontend/src/components/Profile.tsx:86 | trimming never introduces a comma |
| ProfileView.ParseSkills | frontend/src/components/Profile.tsx:85-88 | the skills are exactly the non-empty trimmed comma-separated pieces, each as often as it occurs, in the line's order; so every skill is non-empty, has no surrounding white space and no comma |
| ProfileView.SplitJoinedSkills | frontend/src/components/Profile.tsx:144 | splitting `skills.join(', ')` on `,` gives the first skill, then every other skill after one space |
| ProfileView.DropEmptyKeepsNonEmpty | frontend/src/components/Profile.tsx:86 | dropping empty strings from a list without any keeps the list |
| ProfileView.ParseSkillsRoundTrip | frontend/src/components/Profile.tsx:85-88 | reading back the line the form shows (`join(', ')`) gives the same skills when each is non-empty, trimmed and comma-free |
| ProfileView.CommaFreeLine | frontend/src/components/Profile.tsx:85-88 | a line without a comma gives its trimmed text as the only skill, or none when that is empty |
| ProfileView.TrimJoinedParts | frontend/src/components/Profile.tsx:144 | trimming the pieces of the split shown line gives back the skills |
| ProfileView.ProfileView.constructor | frontend/src/components/Profile.tsx:16-34 | after a successful fetch the shown and edited profiles are the same value; after a failure the error text is kept; not loading either way |
| ProfileView.ProfileView.HandleEditClick | frontend/src/components/Profile.tsx:36-42 | signed out, it goes to `/auth` and changes nothing; signed in, it opens the form and changes nothing else |
| ProfileView.ProfileView.UpdateField | frontend/src/components/Profile.tsx:79-83 | only the edited copy changes, in the named field; nothing changes without an edited copy |
| ProfileView.ProfileView.UpdateSkills | frontend/src/components/Profile.tsx:85-88 | the edited copy's skills become the parsed line; nothing changes without an edited copy |
| ProfileView.ProfileView.HandleCancel | frontend/src/components/Profile.tsx:74-77 | the edited copy returns to the shown profile and the form closes |
| ProfileView.ProfileView.HandleSave | frontend/src/components/Profile.tsx:44-72 | without an edited copy nothing happens; a successful answer becomes the shown profile and closes the form; a failure sets the error and leaves the form as it was; loading ends either way |
| MockData.MockTopSkillsOrdered | frontend/src/mockData.ts:72-78 | the demo leaderboard is in non-increasing count order |
| MockData.FilterBySkill | frontend/src/mockData.ts:82-84 | exactly the projects one of whose skills contains the query ignoring case, kept in order |
| MockData.FilterProjectsBySkill | frontend/src/mockData.ts:81-85 | the search over the demo projects is an order-preserving selection of exactly the matching projects |
| MockData.EmptyQueryKeepsProjectsWithSkills | frontend/src/mockData.ts:83 | the empty query finds every project with at least one skill |
| MockData.QueryCaseIgnored | frontend/src/mockData.ts:83 | a query and its lowered form find the same projects |
| MockData.NarrowerQueryFindsFewer | frontend/src/mockData.ts:83 | if `q1` occurs in `q2`, whatever `q2` finds, `q1` finds too |
| AuthPage.Validate | frontend/src/pages/Auth.tsx:23-36 | checks in order with the first failure winning: fields present, then (sign-up only) a matching confirmation, then at least six UTF-16 units; none fails exactly when all hold |
| AuthPage.SignInIgnoresConfirmation | frontend/src/pages/Auth.tsx:28 | signing in, the confirmation field plays no part |
| AuthPage.PageChecksCoverServerChecks | frontend/src/pages/Auth.tsx:23-36 | a sign-up form the page accepts passes the server's presence and length guards too |
| AuthPage.AuthPage.constructor | frontend/src/pages/Auth.tsx:9-14 | starts in sign-in mode with every field empty |
| AuthPage.AuthPage.HandleSubmit | frontend/src/pages/Auth.tsx:18-48 | a failed check sets its one message and makes no call; otherwise the mode's call is made and the page goes to `/` exactly when it did not throw; the form's fields are kept |
| AuthPage.AuthPage.ToggleMode | frontend/src/pages/Auth.tsx:50-55 | switches mode, clears error, confirmation and name, and keeps e-mail and password |
| AuthPage.AuthPage.ToggleTwice | frontend/src/pages/Auth.tsx:50-55 | toggling twice restores the mode and keeps the credentials |
| AuthContext.FailureText | frontend/src/contexts/AuthContext.tsx:56-71 | the server's message when it has one, otherwise the thrown error's message or the fallback |
| AuthContext.SentNameIsKept | frontend/src/contexts/AuthContext.tsx:87 | the name the client sends is the one the server would have chosen itself |
| AuthContext.AuthContext.constructor | frontend/src/contexts/AuthContext.tsx:29-42 | the session is restored only when both keys hold something; a stored user that does not parse removes both keys |
| AuthContext.AuthContext.IsAuthenticated | frontend/src/contexts/AuthContext.tsx:120-125 | holds exactly when there is a user and a non-empty token |
| AuthContext.AuthContext.Complete | frontend/src/contexts/AuthContext.tsx:44-76 | success writes the same token and user to storage and to state; failure sets the error, throws, and leaves token, user and storage alone; loading ends either way |
| AuthContext.AuthContext.Login | frontend/src/contexts/AuthContext.tsx:44-76 | `login` with the outcome of `/auth/signin`; an accepted login with a token is authenticated |
| AuthContext.AuthContext.Signup | frontend/src/contexts/AuthContext.tsx:78-110 | `signup` sends the name or the e-mail's local part, then completes like `login` with fallback "Signup failed" |
| AuthContext.AuthContext.Logout | frontend/src/contexts/AuthContext.tsx:112-118 | both keys removed and user, token and error cleared, so a second logout changes nothing; never authenticated after it |
| AuthContext.AuthContext.LoginThenReload | frontend/src/contexts/AuthContext.tsx:29-76 | after an accepted login, mounting again from storage restores the same user and token |

## Left out

- bcrypt and JWT internals are left out. Hashing, comparing and signing are symbolic, and `jwt.verify` (signature and the seven-day expiry) is the parameter `verify` of `AccessGuard.Guard`.
- `JWT_SECRET` and its environment default are left out. The secret is a parameter.
- The clock is an input: `now` is the time in seconds at which a token is signed. The conversion of `Date.now()` milliseconds to whole seconds is not modelled.
- Store.ProfileTable.FindFirst: `findFirst` at `backend/src/routes/profile.ts:12` and `findMany` at `backend/src/routes/project.ts:12` have no `orderBy`, so the database promises no particular row or order. The model's table order (creation order, with an updated row kept in its place) is its own choice. `ProfileRoutes.GetProfile`, `Store.ProfileTable.Update`, `ProjectRoutes.ListProjects` and `ProjectRoutes.WithSkill` follow that order.
- The Prisma client and schema are not part of this model. The model assumes that profile `name` and `email` are required and that `email` is unique. A violation is the upsert's `Rejected` outcome. Row ids are inputs (`newId`).
- The `include` of education, skills, projects and links in the profile and project responses is not modelled. A response carries the row itself.
- `storeFails` collapses every database error into one flag. That includes a foreign-key violation on `profileId`. The model does not say which call threw; it says only that nothing was written.
- The concurrent signup race is left out. The existence check and the create are not atomic in the source, but a sequential model cannot express two interleaved requests; uniqueness is the map key.
- SkillRoutes.SortByCount: `orderBy _count desc` leaves the order of ties open. The model fixes one order, so it promises a particular tie order where the database promises none.
- `toLowerCase` lowers ASCII letters only. Unicode case mapping is not modelled.
- JSON serialization and parsing are not modelled. A stored user is either the serialization of a user or text that does not parse. Text that parses to something other than a user is not modelled.
- Mounting with a stored user that does not parse keeps the token in state, as the source does, because `setToken` runs before the parse. Both keys are still removed. The model states this behaviour as it is rather than a cleared session.
- Browser storage, `fetch`, `navigate` and `apiRequest` are not modelled. Storage is two fields of the session. Network replies are method parameters. A navigation is a returned path.
- The `Authorization` header that `handleSave` sends is not modelled. Neither are the request bodies of `login` and `signup`, except the name `signup` sends.
- The `loading` flag is modelled only as its final value. The intermediate renders are not.
- JSX rendering, styles and hover handlers are not modelled. Only the condition that shows the page selector is.
- The following files are not part of this model: the server bootstrap (`backend/src/index.ts`), the seeding script, `AddProject.tsx`, `SearchBySkill.tsx`, `Index.tsx` and the type declarations.
- The compiled copies under `backend/dist` are not modelled separately. The one exception is the case-insensitive skill filter of the compiled project route: it is the `insensitive` flag of `ProjectRoutes.ListProjects`.
