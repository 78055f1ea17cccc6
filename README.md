# Mermadic core in Dafny

Mermadic is a small web application for writing, storing, rendering and sharing
Mermaid diagrams. This project models the logic beneath its HTTP, database and DOM
glue, and proves what that logic promises:

- **Chart table** (`ChartModel`). A class over an in-memory charts table, a map from
  row id to row. `lastId` plays the AUTOINCREMENT counter. It covers create with a
  random hex share token, the point finders, a per-user listing newest first, and
  update and delete with their change counts. The invariant keeps `share_id` unique.
- **Chart handlers** (`ChartController`). The fixed order of checks in front of the
  table: 401, then 400, then 404, then 403. A chart is readable when it is public or
  the requester owns it. Only the owner's update or delete reaches the table.
- **User table** (`UserModel`). A class over the users table, with unique usernames
  and emails. It covers local sign-up with a salted password hash, the lookups, and
  the three-way resolution of a Google sign-in. That resolution matches by Google id,
  else links the Google id onto the account with the same email, else inserts a new
  account. Two sign-ins with one profile resolve to the same account.
- **User handlers** (`UserController`). Register, login, logout and current-user. The
  model shows what each handler answers and what it leaves in the session.
- **Render cache** (`RenderCache`). A content-addressed cache directory, a map from
  file name to contents, in front of two renderers. A hit starts no renderer. A
  successful miss leaves `<hash>.svg` and no temporary file, so the next call is a
  hit with the same SVG.
- **Rendered pages** (`RenderPages`). The HTML page built from a request body, and
  the standalone page of a stored chart. The chart page uses the same read gate as
  the chart handlers. A reader recovers the title, heading and diagram slots from a
  page, so the slot contents are proved rather than restated.
- **Zoom controls** (`ZoomControls`). The zoom level and the two button flags of a
  diagram view, with exact real arithmetic. Button presses and resets keep the level
  on the quarter-step grid between 0.5 and 3.0. `setZoom` can leave the grid, and
  the next zoom-in then passes 3.0.

Values the application gets from outside are inputs of the model:

- The clock (`CURRENT_TIMESTAMP`) is a `now` parameter.
- The eight bytes of `crypto.randomBytes(8)` are a `random` parameter.
- A bcrypt salt is a `salt` parameter.
- The MD5 digest (RFC 1321) is a function fixed when the cache is built.
- The bcrypt derivation is a function fixed when the users table is built.
- The mermaid-cli run and the mermaid library are functions passed per request. Either
  may fail.
- The session is a value, `Option<SessionUser>`. A handler receives it and returns the
  session it leaves.

Request bodies are records whose text fields may be absent: `Option<string>`.
JavaScript's `!field` test is `Provided`: present and not empty. The `isPublic` flag is
a JSON value: undefined, null, a boolean, a number, a string, or an object or array
(one truthy value, `Composite`). The chart handlers pass it through unchanged; the `Chart`
model tests it for truthiness when it stores the `public` column (`ChartModel.PublicColumn`).

Where the code and its documentation disagree, the model follows the code:

- `register` answers 500, not 400, when the email is already in use. It checks only
  the username before inserting, and the email's UNIQUE constraint then rejects the
  insert (`UserController.Register`).
- `login` answers 500 for an account created through Google, which has no password
  hash, because bcrypt throws on it (`UserController.Login`).

## Model

| member | source | states |
|---|---|---|
| Hex.Encode | backend/models/chart.js:7 | the share token is two lower-case hex digits per random byte |
| Hex.DecodeEncode | backend/models/chart.js:7 | reading the hex text back gives the original bytes |
| Hex.EncodeInjective | backend/models/chart.js:7 | different random bytes give different share tokens |
| ChartModel.InsertNewestFirst | backend/models/chart.js:58-69 | the row is added to a list kept in `updated_at DESC` order; the result holds exactly the old rows and the new one, and stays ordered |
| ChartModel.InsertKeepsDistinct | backend/models/chart.js:58-69 | adding a row not yet listed keeps every row listed once |
| ChartModel.ChartTable.constructor | backend/db.js:24-34 | an empty charts table with the counter at zero meets the table invariant |
| ChartModel.ChartTable.Create | backend/models/chart.js:6-27 | on a token collision, a `share_id` UNIQUE violation and no change; otherwise a fresh id, the row stored with `public` as 1 or 0 by truthiness of `isPublic` (default false), and a 16-character hex token; the invariant holds |
| ChartModel.ChartTable.FindById | backend/models/chart.js:30-41 | the row with that id, or nothing exactly when no row has it |
| ChartModel.ChartTable.FindByShareId | backend/models/chart.js:44-55 | the row carrying that token, or nothing exactly when no row carries it |
| ChartModel.ChartTable.FindByUserId | backend/models/chart.js:58-69 | exactly the rows of that user, each once, newest update first |
| ChartModel.ChartTable.Update | backend/models/chart.js:72-85 | only title, content, `public` and `updated_at` of that row change; `changes` is 1 when the row exists and 0 otherwise; nothing else changes |
| ChartModel.ChartTable.Delete | backend/models/chart.js:88-99 | only that row is removed; `changes` is 1 when it existed and 0 otherwise |
| ChartController.ShowChart | backend/controllers/chartController.js:48-57 | 404 exactly when there is no row, 403 exactly for a private row and a requester who is not its owner, 200 with the row exactly when the requester may view it |
| ChartController.CreateChart | backend/controllers/chartController.js:4-27 | 401 exactly without a session, then 400 exactly without title or content, 500 exactly on a token collision, else 201, and 201 is always the created answer: the next id of the counter (never a reused one), the session user as owner, the given title and content, `isPublic` echoed with the `false` default, and the hex text of the random bytes as token, with exactly that row inserted (`public` 1 or 0 by truthiness); the rows and the id counter change only on 201, the counter by one |
| ChartController.GetUserCharts | backend/controllers/chartController.js:30-43 | 401 exactly without a session; otherwise exactly the session user's charts, each once, newest first |
| ChartController.GetChartById | backend/controllers/chartController.js:46-64 | 404 exactly when the id is absent, 403 exactly for a private chart and no session or a non-owner, 200 exactly when it is public or owned by the requester, and then the response is that row |
| ChartController.GetChartByShareId | backend/controllers/chartController.js:67-85 | 404 exactly when no row carries the token, 403 exactly when the row carrying it may not be viewed by the requester, 200 exactly when it may, and then the response is that row; a public chart is returned to anyone, signed in or not |
| ChartController.UpdateChart | backend/controllers/chartController.js:88-122 | checks in the order 401, 400, 404, 403, each stated as an if-and-only-if; the rows change only for the owner, and then only that row's editable fields; the id counter never changes |
| ChartController.DeleteChart | backend/controllers/chartController.js:125-152 | checks in the order 401, 404, 403, each stated as an if-and-only-if; the rows change only for the owner, and then only by removing that row; the id counter never changes |
| UserModel.UserTable.constructor | backend/db.js:15-21 | an empty users table with the counter at zero meets the table invariant |
| UserModel.UserTable.VerifyPassword | backend/models/user.js:116-118 | true exactly when re-deriving under the stored cost and salt gives the stored hash; an error exactly when there is no stored hash |
| UserModel.UserTable.HashThenVerify | backend/models/user.js:8 | a password verifies against the hash made from it at cost 10 |
| UserModel.UserTable.Create | backend/models/user.js:6-23 | a username in use, else an email in use, gives its UNIQUE violation and no change; otherwise a fresh id and a `local` row storing the hash of the password, never the password itself |
| UserModel.UserTable.FindByUsername | backend/models/user.js:88-99 | the row with that username, or nothing exactly when no row has it |
| UserModel.UserTable.FindById | backend/models/user.js:102-113 | a row view exactly when the id exists, with its public fields; the view type has no password or Google id |
| UserModel.UserTable.FindByEmail | backend/models/user.js:121-135 | the row with that email, or nothing exactly when no row has it |
| UserModel.UserTable.FindByGoogleId | backend/models/user.js:138-152 | the row holding that Google id, or nothing exactly when no row holds it |
| UserModel.UserTable.UpdateGoogleInfo | backend/models/user.js:155-179 | only Google id, picture and `auth_type = 'google'` of that row change, and the result is its `findById` view; no row, no change and no result |
| UserModel.UserTable.FindOrCreateGoogleUser | backend/models/user.js:26-85 | no email: failure and no change; a row with the Google id: that row and no change; else a row with the email: linked and its view returned; else a new `google` row with no password, named after the display name; the account returned holds the Google id |
| UserModel.UserTable.SignInTwice | backend/models/user.js:44-57 | after a successful sign-in, a second one with the same profile finds the same account by Google id and changes neither the rows nor the id counter |
| UserController.Register | backend/controllers/userController.js:4-35 | 400 exactly for a missing field or a username in use, 500 exactly when only the email is in use, else 201, and 201 is always the registered answer with the new id (the counter advanced by one), username and email only, after exactly one `local` row holding the password's hash is inserted; nothing is inserted unless 201 |
| UserController.Login | backend/controllers/userController.js:38-78 | 400 exactly for a missing field; 401 with one message exactly for an unknown username or a wrong password; 500 exactly when the row has no hash; on success the session holds exactly id, username and email of the matched row |
| UserController.Logout | backend/controllers/userController.js:81-88 | the session is destroyed, or 500 when the store fails |
| UserController.GetCurrentUser | backend/controllers/userController.js:91-120 | 401 without a session; 401 and a destroyed session when the row is gone; otherwise the session user is replaced by the row's fresh fields, which are returned |
| RenderCache.CacheDirectory.constructor | backend/controllers/renderController.js:11-16 | a new cache directory, as `mkdirSync` makes it, holds no files and no renderer has run |
| RenderCache.CacheDirectory.ContentHash | backend/controllers/renderController.js:19-21 | the cache key is the hex text of the digest: two hex digits per digest byte |
| RenderCache.CacheDirectory.FilesDiffer | backend/controllers/renderController.js:34-45 | the `.svg` file of one source never has the name of the `.mmd` file of another |
| RenderCache.CacheDirectory.RenderDiagram | backend/controllers/renderController.js:24-76 | 400 with no change without content; a hit returns the stored SVG and starts no renderer; a successful miss stores and returns the SVG and removes the `.mmd` file; a failed miss is a 500 with `fallback: true` and leaves the `.mmd` file |
| RenderCache.CacheDirectory.RenderDiagramWithLibrary | backend/controllers/renderController.js:79-132 | the same cache; a successful miss writes only `<hash>.svg`; a failed miss writes nothing |
| RenderCache.CacheDirectory.RenderTwice | backend/controllers/renderController.js:37-59 | once a call has produced an SVG, the next call with the same source returns the identical SVG, writes nothing and starts no renderer; over both calls the renderer starts once when the first call missed and never when it hit; a successful miss leaves no temporary file |
| RenderPages.ReadFill | backend/controllers/renderController.js:147-253 | a page built from the template gives back its title, heading and diagram source when read, whatever the source text |
| RenderPages.RenderDiagramHtml | backend/controllers/renderController.js:135-260 | 400 exactly without content; otherwise a page whose title is the given title or "Mermaid Diagram", with a heading only when a title is given, and the source verbatim |
| RenderPages.RenderDiagramPage | backend/controllers/renderController.js:263-408 | the same status and message as the chart handlers' read gate; a served page has the chart title plus " - Mermadic" as title, the chart title as heading, and the stored source |
| ZoomControls.Clamp | public/js/zoom-controls.js:114 | the result lies in [0.5, 3.0]; a level inside is kept, one below gives 0.5, one above gives 3.0 |
| ZoomControls.StepKeepsGrid | public/js/zoom-controls.js:61-78 | a button press or a reset keeps a quarter-step level between 0.5 and 3.0 on that grid |
| ZoomControls.RunKeepsGrid | public/js/zoom-controls.js:61-78 | any run of button presses and resets from a grid level stays on the grid |
| ZoomControls.DefaultOnGrid | public/js/zoom-controls.js:7 | the default level 1.0 is on the grid |
| ZoomControls.RunStaysNearBounds | public/js/zoom-controls.js:61-116 | whatever the actions, the level stays strictly within one step of [0.5, 3.0] |
| ZoomControls.SetZoomLeavesGrid | public/js/zoom-controls.js:113-116 | `setZoom(2.9)` then zoom-in gives 3.15, which is off the grid and above the maximum |
| ZoomControls.InOutInverse | public/js/zoom-controls.js:61-73 | on the grid, zoom-out undoes zoom-in below the maximum and zoom-in undoes zoom-out above the minimum; at a bound the press changes nothing |
| ZoomControls.ZoomControl.constructor | public/js/zoom-controls.js:53 | the controls start at 1.0 with neither button disabled, which matches the flags for 1.0 |
| ZoomControls.ZoomControl.UpdateZoom | public/js/zoom-controls.js:81-90 | zoom-in is disabled exactly at or above 3.0 and zoom-out exactly at or below 0.5; in an iframe whose document cannot be reached the flags stay as they were |
| ZoomControls.ZoomControl.Load | public/js/zoom-controls.js:204-206 | the iframe's load event runs one flag update |
| ZoomControls.ZoomControl.ZoomIn | public/js/zoom-controls.js:97-102 | one step up and a flag update below 3.0; at or above 3.0 nothing changes; in an iframe that cannot be reached the flags stay as they were |
| ZoomControls.ZoomControl.ZoomOut | public/js/zoom-controls.js:103-108 | one step down and a flag update above 0.5; at or below 0.5 nothing changes; in an iframe that cannot be reached the flags stay as they were |
| ZoomControls.ZoomControl.ResetZoom | public/js/zoom-controls.js:109-112 | the level is 1.0 and, once the flags are updated, neither button is disabled; in an iframe that cannot be reached the flags stay as they were |
| ZoomControls.ZoomControl.SetZoom | public/js/zoom-controls.js:113-116 | the level is the clamped argument and the flags, once updated, follow it; in an iframe that cannot be reached the flags stay as they were |
| ZoomControls.ButtonsOnlyStayOnGrid | public/js/zoom-controls.js:53-78 | controls that have seen only button presses and resets are on the grid between 0.5 and 3.0 |

## Left out

- The 500 answers of the `catch` blocks for exceptions the model has no source for,
  such as a database, file system or session store failure outside the cases above.
- Non-string JSON values in the request text fields. A field is either absent or a
  string.
- The members of an object or array sent as `isPublic`. It is one truthy value,
  `Composite`, so it stores 1, and `create` echoes `Composite` rather than the object.
- Floating point. Zoom levels are exact reals. In JavaScript, 2.9 + 0.25 rounds, and
  `setZoom(NaN)` stores NaN. Both are outside the model.
- Foreign keys. SQLite does not enforce `user_id REFERENCES users (id)` unless asked
  to, and the model does not either.
- The schema of backend/db.js. Its users table has no `google_id`, `profile_picture` or
  `auth_type` column and declares `password NOT NULL`. The model has the columns that
  backend/models/user.js reads and writes.
- UserModel.UserTable.UpdateGoogleInfo: it requires that no row already holds the
  Google id. Its one caller establishes this, and the uniqueness of Google ids it keeps
  is not a schema constraint.
- ChartModel.ChartTable.FindByUserId: rows updated at the same moment may come in any
  order. SQL leaves that order open too.
- Concurrency. Two renders of one source racing on the same files are not modelled, and
  neither is the non-atomic update-then-read in `updateGoogleInfo`.
- The renderers' partial output. A failed mermaid-cli run is assumed to write no SVG
  file.
- DOM effects of the zoom controls: styles, element creation, event wiring. Only the
  zoom level and the two button flags are modelled.
- The CSS and inline script text of the HTML pages. These are abbreviated to comments.
  The title, heading and diagram slots and the markup around them are kept.
- RenderPages.RenderDiagramHtml and RenderPages.RenderDiagramPage: reading a page back
  is proved only for titles without '<'. The source interpolates titles without
  escaping, so a title holding markup is indistinguishable from the page's own.
- A Google profile's display name is taken to be a string.
- The OAuth 2.0 (RFC 6749) sign-in through passport, the route wiring, and the
  front-end scripts. backend/config/passport.js, backend/routes, backend/server.js and
  frontend/ are not part of this model.
- Console logging.
