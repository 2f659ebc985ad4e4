# Personal-site backend core in Dafny

This project models the logic behind a small personal-site backend: a résumé page, a gift wishlist that visitors can reserve, and a list of blog posts. It covers:

- **Wishlist table** (`Wishlist`). Wish items are kept by id. The module covers:
  - the public view of a wish, where `reserved` and `image_url` are derived;
  - storing an uploaded image under a random name;
  - creating, editing, deleting and releasing, all behind the admin gate;
  - the anonymous reservation (free → reserved, or 409);
  - the newest-first listing.

  The table is a `class` over a `map` from id to row, and every handler is a method on it. Each method's contract gives the new table in terms of small pure functions on one row (`Reserve`, `Release`, `ApplyChanges`, `NewWish`). Lemmas prove what those functions promise.
- **Posts** (`Posts`). The public view of a post, and the create, update, delete and list handlers. The tags go through the tag codec.
- **Tag codec** (`Tags`). A list of tags is stored as one comma-joined text and expanded back into a list. The module proves the round trip and its idempotence.
- **Résumé loader** (`Resume`). A class whose cache is revalidated by the file's modification time. Parsing is done by two given parsers, and the state of the file is a parameter.
- **Admin gate** (`AdminGate`). The three-way decision between 412, 401 and letting the request through.
- **Settings** (`Config`). The resolution of the database URL, and the settings object that is built once and then shared.

Support modules:

- `Strings` holds the Python `str` operations the code uses.
- `Paths` holds the part of `PurePosixPath` the code uses.
- `Ordering` holds the `ORDER BY created_at DESC` of the list queries.
- `Http` holds the error statuses.
- `Wrappers` holds `Option` and `Result`.

Randomness, the clock and the file system are parameters:

- the hex token of an image name;
- the `now` of a creation or reservation;
- the `FileState` of the résumé file.

## Model

| member | source | states |
|---|---|---|
| Tags.Clean | src/app/utils.py:9 | every kept tag is non-empty and stripped, and there are never more tags than were given |
| Tags.CleanAppend | src/app/utils.py:9 | cleaning works element by element, so order and duplicates are kept |
| Tags.CleanFixpoint | src/app/utils.py:9-10 | a list that is already clean is left unchanged |
| Tags.TagsToText | src/app/utils.py:6-10 | the result is `None` exactly when the input is `None` or nothing survives cleaning; otherwise it is the non-empty comma-join of the cleaned tags |
| Tags.TagsFromText | src/app/utils.py:13-16 | `None` or empty text gives `[]`; otherwise the result is the comma-separated pieces of the text, stripped, with blank pieces dropped, in text order; every tag returned is non-empty, stripped and comma-free |
| Tags.DecodeJoined | src/app/utils.py:13-16 | text made of comma-free pieces joined by commas decodes to those pieces, stripped, with blanks dropped, in order |
| Tags.RoundTrip | src/app/utils.py:6-16 | for tags without commas, decoding the encoding gives back the input stripped, with blank tags dropped |
| Tags.DecodeEncodeDecode | src/app/utils.py:6-16 | decode, then encode, then decode gives the same result as decoding once |
| Tags.PaddedDuplicateKept | src/app/utils.py:6-16 | a tag, a padded copy of it and a blank tag encode to `t,t` and decode to `[t, t]`: blanks are dropped and duplicates kept |
| Tags.BlankTagsClean | src/app/utils.py:9-10 | a list of blank tags cleans to nothing |
| Strings.SplitJoin | src/app/utils.py:10-16 | splitting a comma-join of comma-free parts gives back the parts |
| Strings.JoinSplit | src/app/utils.py:10-16 | joining the pieces of a split gives back the text |
| Strings.StripBlank | src/app/utils.py:9 | `strip()` gives `""` exactly when the text is all white space |
| AdminGate.RequireAdmin | src/app/deps.py:14-24 | 412 exactly when the configured token is the placeholder, whatever token is presented; otherwise 401 exactly when the presented token is absent, empty or different; access is allowed exactly when the configured token is not the placeholder and the presented one is non-empty and equal to it |
| AdminGate.EmptySecretAdmitsNoOne | src/app/deps.py:23-24 | an empty configured token admits no one |
| Config.SqliteUrl | src/app/config.py:37 | the URL starts with `sqlite:///`, is followed by the path, and contains `://` |
| Config.ResolveDatabaseUrl | src/app/config.py:29-40 | a URL containing `://` is returned unchanged; a URL without it becomes a SQLite URL whose path has the URL's parts, under the data directory when relative; with no URL, the SQLite path is the data directory's parts followed by `app.db`; the result always contains `://` |
| Config.PathParts | src/app/config.py:33-36 | an absolute path keeps its parts, and a relative one is appended to the data directory's parts |
| Config.DefaultFileParts | src/app/config.py:40 | the default database file lies directly in the data directory |
| Config.ResolvedIsRawOrSqlite | src/app/config.py:29-40 | the result is the configured URL or starts with `sqlite:///` |
| Config.ResolveIdempotent | src/app/config.py:29-40 | configuring a resolved URL resolves to that URL itself |
| Config.Settings.constructor | src/app/config.py:10-26 | the settings hold the admin token, database URL and data directory of the environment |
| Config.SettingsProvider.GetSettings | src/app/config.py:46-50 | the first call builds a fresh settings object from the environment; every later call returns the same object; at most one object is ever built |
| Config.GetSettingsTwice | src/app/config.py:46-50 | two calls return the same object even if the environment changed in between |
| Paths.Suffix | src/app/resume_loader.py:23 | when the last dot of the name is neither its first nor its last character, the suffix is the name from that dot on; otherwise it is empty. A non-empty suffix is a dot and at least one more character, with no further dot, at the end of the name |
| Paths.SuffixOfFileName | src/app/app_factory.py:179 | a file name made of a stem, which may contain dots, and an extension has that extension as its suffix |
| Paths.PartsOfFormat | src/app/config.py:34-37 | printing a path and reading it back gives the same parts |
| Paths.RenderIdempotent | src/app/config.py:34-37 | printing a printed path changes nothing |
| Paths.JoinUnderParts | src/app/config.py:35-36 | a relative path joined under a directory has the directory's parts followed by its own |
| Resume.ResumeLoader.constructor | src/app/resume_loader.py:11-14 | a new loader has no cached document and no modification time |
| Resume.IsYamlPath | src/app/resume_loader.py:23 | a path is read as YAML when its suffix, lower-cased, is `.yaml` or `.yml` |
| Resume.YamlExtensionIsYaml | src/app/resume_loader.py:23 | a file whose extension is `.yaml` or `.yml` in any letter case, such as `cv.YML`, is read as YAML |
| Resume.ResumeLoader.Parse | src/app/resume_loader.py:22-26 | a YAML file gives the YAML parser's document when it is truthy and `{}` when it is falsy, so never `None`; a YAML parse error is passed on; every other file gives the JSON parser's result |
| Resume.ResumeLoader.Load | src/app/resume_loader.py:16-29 | a missing file gives `{}` and leaves the cache alone; a cached document for the current modification time is returned without parsing; otherwise the file is parsed once, and a success caches the document and the time while an error changes nothing |
| Resume.LoadTwice | src/app/resume_loader.py:19-29 | after a first load that succeeds with a document other than `null`, a second load of the unchanged file parses nothing and returns the same document |
| Resume.LoadAfterTouch | src/app/resume_loader.py:19-29 | a changed modification time forces a re-parse |
| Ordering.Insert | src/app/app_factory.py:171 | inserting into a newest-first list keeps it newest-first and duplicate-free, with exactly one more element |
| Ordering.OrderNewestFirst | src/app/app_factory.py:171 | every row appears exactly once, and creation times never increase along the list |
| Wishlist.WishToPublic | src/app/app_factory.py:50-63 | `reserved` is true exactly when `reserved_by` is not `None`; a missing id is shown as 0; an image URL exists exactly when the image path is non-empty, and is the prefix, a slash and the path; the other fields are copied |
| Wishlist.Extension | src/app/app_factory.py:179 | the extension is the lower-cased suffix of the upload name, or `.jpg` when there is none; either way it is a dot followed by non-dot, non-slash, non-upper-case characters |
| Wishlist.StoredImagePath | src/app/app_factory.py:174-186 | with no upload or an unnamed one, nothing is stored; an upload not declaring `image/` gives 400; otherwise the path is `wishlist/` followed by the token and the extension |
| Wishlist.StoredImageInWishlistDir | src/app/app_factory.py:179-186 | for a hex token, the stored path has exactly the two parts `wishlist` and the file name, and its suffix is the extension |
| Wishlist.ExtensionOfFileName | src/app/app_factory.py:179 | an upload named `<stem><ext>`, such as `photo.PNG`, is stored with its extension in lower case |
| Wishlist.CreateData | src/app/app_factory.py:199-208 | title, description, link, price and image path come from the JSON body when it is read; otherwise title, description, link and price come from the form, as sent, and there is no image path |
| Wishlist.NewWish | src/app/app_factory.py:211-214 | the new row has the given id and time, a non-empty title, no reservation, and the stored image in place of any image path in the body |
| Wishlist.FormChanges | src/app/app_factory.py:239 | only form fields that are present and non-empty become changes |
| Wishlist.UpdateData | src/app/app_factory.py:235-239 | the changes are the JSON body when it is read, and otherwise the form's non-empty fields, with no image path |
| Wishlist.UpdateChanges | src/app/app_factory.py:235-241 | the changes written keep every field of the JSON or form changes except the image path. When a file was sent, the image path is exactly the stored path `StoredImagePath` gives, `wishlist/<token><ext>`, the file `UpdateWish` adds to the media; otherwise it is the one from those changes |
| Wishlist.ApplyChanges | src/app/app_factory.py:242-243 | every field in the changes is overwritten, and id, creation time and reservation stay the same |
| Wishlist.ApplyChangesIdempotent | src/app/app_factory.py:242-243 | applying the same changes twice is the same as applying them once |
| Wishlist.FormUpdateKeepsValues | src/app/app_factory.py:239-243 | a form update never empties a non-empty field and never touches the image path |
| Wishlist.EmptyFormChangesNothing | src/app/app_factory.py:239-243 | a form with no non-empty field leaves the row unchanged |
| Wishlist.JsonUpdateMayEmptyTitle | src/app/app_factory.py:235-243 | a JSON update can set an empty title, which creation would refuse |
| Wishlist.Reserve | src/app/app_factory.py:267-270 | sets the stripped name, the contact and note as given, and the time; no other field changes |
| Wishlist.Release | src/app/app_factory.py:281-284 | clears the four reservation fields; no other field changes |
| Wishlist.ReleaseIdempotent | src/app/app_factory.py:281-284 | releasing twice is the same as releasing once |
| Wishlist.ReleasedIsFree | src/app/app_factory.py:281-284 | a released wish is free and shown as not reserved |
| Wishlist.ReserveThenRelease | src/app/app_factory.py:267-284 | reserving and then releasing gives the same row as releasing alone |
| Wishlist.ReservedIsTaken | src/app/app_factory.py:265-267 | after a reservation under a name that is not blank, the wish is shown as reserved and is no longer free |
| Wishlist.BlankNameShownReservedButFree | src/app/app_factory.py:265-267 | after a reservation under a blank name, the wish is shown as reserved but is still free, and the next reservation overwrites it |
| Wishlist.WishlistStore.StoreImage | src/app/app_factory.py:174-186 | the result is the stored path, and the written file is added to the media set, but only when a path is returned |
| Wishlist.WishlistStore.CreateWish | src/app/app_factory.py:188-218 | the checks run in order: gate; 500 for an invalid JSON body; 422 for a missing or empty title; 400 for a non-image upload. Each failure changes nothing, and an image is written only after the title check. On success one new row is added under a fresh id and its public view is returned |
| Wishlist.WishlistStore.UpdateWish | src/app/app_factory.py:220-247 | the checks run in order: gate; 404 for an unknown id; 500 for an invalid JSON body; 400 for a non-image upload. Each failure changes nothing. On success only that row changes: the JSON or form changes are applied, and a stored image replaces the image path |
| Wishlist.WishlistStore.DeleteWish | src/app/app_factory.py:249-256 | the gate, then 404 for an unknown id; otherwise exactly that row is removed |
| Wishlist.WishlistStore.ReserveWish | src/app/app_factory.py:258-274 | no gate; 404 for an unknown id; 409 for a wish that is not free, leaving the table unchanged; otherwise only that row changes, by `Reserve` |
| Wishlist.WishlistStore.ReleaseWish | src/app/app_factory.py:276-288 | the gate, then 404 for an unknown id; otherwise only that row changes, by `Release`, whatever its state |
| Wishlist.WishlistStore.ListWishlist | src/app/app_factory.py:169-172 | every row appears exactly once, newest first, as its public view, and each view's id is its row's key |
| Wishlist.ReserveTwice | src/app/app_factory.py:262-270 | once a reservation under a name that is not blank succeeds, the next one gets 409 and the first reserver stays |
| Wishlist.ReleaseTwice | src/app/app_factory.py:276-288 | a second release returns the same result as the first |
| Posts.PostToPublic | src/app/app_factory.py:66-74 | a missing id is shown as 0; the tags are the decoded stored text, each clean and comma-free; no stored tags means `[]` |
| Posts.NewPost | src/app/app_factory.py:297-298 | the new post has the payload's fields and the encoded tags |
| Posts.CreatedPostShowsCleanTags | src/app/app_factory.py:295-302 | a created post shows its comma-free tags stripped, with blanks dropped |
| Posts.ApplyUpdate | src/app/app_factory.py:311-316 | each text field that was sent is overwritten; sent tags, even an empty list, are replaced by their encoding; absent tags are kept; id and creation time never change |
| Posts.UpdateWithoutTagsKeepsTags | src/app/app_factory.py:312-316 | an update without tags shows the same tags as before |
| Posts.UpdateWithBlankTagsClears | src/app/app_factory.py:315-316 | an empty list, or one of blank tags, stores `None` and shows `[]` |
| Posts.UpdateWithTagsShowsThem | src/app/app_factory.py:315-316 | sent comma-free tags are shown back cleaned, whatever the post had before |
| Posts.ApplyUpdateIdempotent | src/app/app_factory.py:311-316 | sending the same update twice is the same as sending it once |
| Posts.PostStore.CreatePost | src/app/app_factory.py:295-302 | the gate; otherwise one new row is added under a fresh id with encoded tags, and its view is returned |
| Posts.PostStore.UpdatePost | src/app/app_factory.py:304-320 | the gate, then 404 for an unknown id; otherwise only that row changes, by `ApplyUpdate` |
| Posts.PostStore.DeletePost | src/app/app_factory.py:322-329 | the gate, then 404 for an unknown id; otherwise exactly that row is removed |
| Posts.PostStore.ListPosts | src/app/app_factory.py:290-293 | every post appears exactly once, newest first, as its public view |

## Left out

- HTTP routing and wiring are not modelled: the FastAPI app, CORS, static mounts, templates, `index`, `wishlist_page`, `api_resume`, `health`, and the JSON encoding of the page state.
- Request validation that the framework does before a handler runs is not modelled. This covers the typed bodies of reservation and of post create and update, which reach the model already validated.
- Inside the wishlist handlers, a JSON body that fails to parse or validate is one case, `BadJson`. The handler then raises, and the model answers 500 (`ServerError`).
- Wishlist.WishlistStore.CreateWish: ids come from a counter that never reuses an id, whereas SQLite hands out the largest id plus one and may reuse a deleted last id; the model promises only that the id is not in use. The same holds for Posts.PostStore.CreatePost.
- Wishlist.WishlistStore.StoreImage: the file copy (`shutil.copyfileobj`) and `mkdir` are not modelled. Only the written path is recorded in `media`, and no file is ever removed.
- Config.ResolveDatabaseUrl: the `mkdir` of the data directory is not modelled. The data directory is a string, and pathlib's handling of a leading `//` is not modelled.
- Paths.Suffix: follows `PurePosixPath.suffix` as of Python 3.13, where a name ending in a dot has no suffix; Python 3.14 returns `"."` for such a name.
- Strings.Lower: lower-cases ASCII letters only; Python's `str.lower()` also maps non-ASCII letters.
- `secrets.token_hex(4)` and `datetime.utcnow()` are parameters, not behaviour. Timestamps and modification times are integers.
- Resume: YAML and JSON parsing are the given parsers, with an error standing for any exception. The file's existence, `stat` and contents are the `FileState` parameter. Opening and decoding errors count as parse errors.
- Config: `Settings()` reads the environment and `.env`; the model takes only the three values it uses as an `Environment`. The other settings fields are not modelled.
- Concurrency is not modelled: each request runs atomically. This leaves out the check-then-set race of reservation and concurrent cache updates.
- `src/app/database.py`, `src/app/__main__.py` and `src/app/static/app.js` are not part of this model.

## Notes on the code's behaviour

These points follow the code as written, where one might expect otherwise:

- A wish is shown as reserved exactly when `reserved_by` is not `None`, but the conflict check of a reservation tests whether `reserved_by` is truthy. A reservation under a blank name stores `""`: the wish then shows `reserved: true`, yet the next reservation succeeds and overwrites it (`Wishlist.BlankNameShownReservedButFree`). One would expect a wish shown as reserved to refuse further reservations with 409.
- A missing or empty title is refused with 422 only when a wish is created. A JSON update may set an empty title (`Wishlist.JsonUpdateMayEmptyTitle`).
- In `create_wish` and `update_wish`, a JSON body that does not validate raises inside the handler and ends as 500, not as a 4xx validation error.
- The JSON body of `create_wish` and `update_wish` may set `image_path` to any text. That path is shown under `/data/` unless an uploaded image replaces it.
- Deleting a wish leaves its image file in place.
- `create_post` does not check its fields for emptiness.
- The résumé loader tests its cache against `None`, so a JSON file holding `null` is parsed again on every load (`Resume.LoadTwice`).
- A file that fails to parse leaves the cache and the recorded modification time as they were, so the next load of the unchanged file parses it again (`Resume.ResumeLoader.Load`).
- A reservation stores the contact as given, so a reserved wish may have no contact.
