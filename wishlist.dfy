/**
 * The wishlist: wish items keyed by id, their public view, the image that
 * may be uploaded with them, and the operations on the table. Creating,
 * editing, deleting and releasing are admin operations; reserving is open
 * to anyone.
 */
module Wishlist {
  import opened Wrappers
  import opened Strings
  import opened Paths
  import opened Http
  import opened AdminGate
  import opened Ordering

  /** A stored wish. Instants are points of an abstract clock. */
  datatype WishItem = WishItem(
    id: Option<int>,
    title: string,
    description: Option<string>,
    link: Option<string>,
    price: Option<string>,
    reservedBy: Option<string>,
    reservedContact: Option<string>,
    reservedNote: Option<string>,
    reservedAt: Option<int>,
    createdAt: int,
    imagePath: Option<string>)

  /** What the API shows of a wish. */
  datatype WishPublic = WishPublic(
    id: int,
    title: string,
    description: Option<string>,
    link: Option<string>,
    price: Option<string>,
    reserved: bool,
    reservedBy: Option<string>,
    reservedContact: Option<string>,
    reservedNote: Option<string>,
    reservedAt: Option<int>,
    imageUrl: Option<string>)

  /** Python truthiness of an optional string: present and not empty. */
  predicate Truthy(s: Option<string>)
  {
    s.Some? && s.value != []
  }

  /** The public URL under which the data directory is served. */
  const DataPrefix: string := "/data"

  /**
   * `wish_to_public`: the stored fields as they are, `reserved` derived from
   * the presence of a reserver, a missing id shown as 0, and an image URL
   * under `dataPrefix` only when an image path is stored.
   */
  function WishToPublic(item: WishItem, dataPrefix: string): (r: WishPublic)
    ensures r.reserved <==> item.reservedBy != None
    ensures r.id == if item.id.Some? then item.id.value else 0
    ensures r.imageUrl != None <==> Truthy(item.imagePath)
    ensures r.imageUrl != None ==>
      StartsWith(r.imageUrl.value, dataPrefix + "/") && r.imageUrl.value[|dataPrefix| + 1..] == item.imagePath.value
    ensures r.title == item.title && r.description == item.description && r.link == item.link && r.price == item.price
    ensures r.reservedBy == item.reservedBy && r.reservedContact == item.reservedContact
    ensures r.reservedNote == item.reservedNote && r.reservedAt == item.reservedAt
  {
    var url := if Truthy(item.imagePath) then Some(dataPrefix + "/" + item.imagePath.value) else None;
    WishPublic(
      if item.id.Some? then item.id.value else 0,
      item.title, item.description, item.link, item.price,
      item.reservedBy != None,
      item.reservedBy, item.reservedContact, item.reservedNote, item.reservedAt,
      url)
  }

  // ---------------------------------------------------------------------
  // Image uploads
  // ---------------------------------------------------------------------

  /** A file part of a request: its client-side name and declared type. */
  datatype Upload = Upload(filename: Option<string>, contentType: Option<string>)

  /** The directory, relative to the data directory, that holds wish images. */
  const WishlistDir: string := "wishlist"

  /** The extension given to an image whose name has none. */
  const DefaultExtension: string := ".jpg"

  /** What the declared type of an image upload starts with. */
  const ImageTypePrefix: string := "image/"

  /** A file was sent: there is a file part and it has a non-empty name. */
  predicate HasFile(upload: Option<Upload>)
  {
    upload.Some? && Truthy(upload.value.filename)
  }

  /** The upload declares an image type. */
  predicate DeclaresImage(u: Upload)
  {
    u.contentType.Some? && StartsWith(u.contentType.value, ImageTypePrefix)
  }

  /** `secrets.token_hex(4)`: eight lower-case hexadecimal digits. */
  predicate IsHexToken(t: string)
  {
    |t| == 8 && forall i :: 0 <= i < |t| ==> t[i] in "0123456789abcdef"
  }

  /**
   * What a stored file's extension looks like: a dot followed by at least
   * one character, none of them a dot, a slash or an upper-case ASCII letter.
   */
  predicate IsExtension(ext: string)
  {
    && |ext| >= 2 && ext[0] == '.'
    && (forall i :: 1 <= i < |ext| ==> ext[i] != '.')
    && (forall i :: 0 <= i < |ext| ==> ext[i] != '/' && !('A' <= ext[i] <= 'Z'))
  }

  /** A path suffix in lower case is an extension. */
  lemma LowerSuffixIsExtension(s: string)
    requires |s| >= 2 && s[0] == '.' && '.' !in s[1..] && '/' !in s
    ensures IsExtension(Lower(s))
  {
    forall i | 0 <= i < |s|
      ensures Lower(s)[i] != '/' && !('A' <= Lower(s)[i] <= 'Z')
      ensures i >= 1 ==> Lower(s)[i] != '.'
    {
      assert s[i] in s;
      if i >= 1 {
        assert s[i] in s[1..];
      }
    }
  }

  /**
   * The extension of the stored file: the suffix of the upload's name in
   * lower case, or `.jpg` when the name has no suffix.
   */
  function Extension(filename: string): (ext: string)
    ensures IsExtension(ext)
    ensures Suffix(filename) != [] ==> ext == Lower(Suffix(filename))
    ensures Suffix(filename) == [] ==> ext == DefaultExtension
  {
    var s := Suffix(filename);
    if s == [] then
      assert IsExtension(DefaultExtension);
      DefaultExtension
    else
      LowerSuffixIsExtension(s);
      Lower(s)
  }

  /** An upload named `<stem><ext>`, such as `photo.PNG`, is stored with the extension in lower case. */
  lemma ExtensionOfFileName(stem: string, ext: string)
    requires stem != [] && '/' !in stem
    requires |ext| >= 2 && ext[0] == '.' && '.' !in ext[1..] && '/' !in ext
    ensures Extension(stem + ext) == Lower(ext)
  {
    SuffixOfFileName(stem, ext);
  }

  /** Where wish images are stored, as the start of a relative path. */
  const WishlistPrefix: string := WishlistDir + "/"

  /**
   * `_store_image`: nothing is stored when no file was sent; an upload that
   * does not declare an image type is refused with 400 before anything is
   * written; otherwise the file is stored as `wishlist/<token><ext>` and
   * that relative path is returned.
   */
  function StoredImagePath(upload: Option<Upload>, token: string): (r: Result<Option<string>, Failure>)
    ensures r == Ok(None) <==> !HasFile(upload)
    ensures r.Err? <==> HasFile(upload) && !DeclaresImage(upload.value)
    ensures r.Err? ==> r.error == BadRequest
    ensures r.Ok? && r.value.Some? ==>
      StartsWith(r.value.value, WishlistPrefix) && r.value.value[|WishlistPrefix|..] == token + Extension(upload.value.filename.value)
  {
    if !HasFile(upload) then Ok(None)
    else if !DeclaresImage(upload.value) then Err(BadRequest)
    else
      var name := token + Extension(upload.value.filename.value);
      PrefixedBy(WishlistPrefix, name);
      Ok(Some(WishlistPrefix + name))
  }

  /**
   * A stored image lies directly in the wishlist directory, and its name
   * keeps the extension: the suffix of the stored path is the extension.
   */
  lemma StoredImageInWishlistDir(filename: string, token: string)
    requires IsHexToken(token)
    ensures var p := WishlistPrefix + (token + Extension(filename));
      && Parts(p) == [WishlistDir, token + Extension(filename)]
      && Name(p) == token + Extension(filename)
      && Suffix(p) == Extension(filename)
  {
    var ext := Extension(filename);
    var name := token + ext;
    assert WishlistPrefix + name == WishlistDir + ['/'] + name;
    HexTokenHasNoSlash(token);
    ExtensionHasNoSlash(ext);
    SuffixOfFileName(token, ext);
    WishlistDirIsPart();
    PartsOfChild(WishlistDir, name);
  }

  /** The wishlist directory is a single path segment. */
  lemma WishlistDirIsPart()
    ensures IsPart(WishlistDir)
  {
  }

  /** A hexadecimal token contains no slash. */
  lemma HexTokenHasNoSlash(token: string)
    requires IsHexToken(token)
    ensures token != [] && '/' !in token
  {
  }

  /** An extension has no slash, and no dot after its first character. */
  lemma ExtensionHasNoSlash(ext: string)
    requires IsExtension(ext)
    ensures '/' !in ext && '.' !in ext[1..]
  {
  }

  // ---------------------------------------------------------------------
  // Requests
  // ---------------------------------------------------------------------

  /** The form fields of a create or update request; absent fields are `None`. */
  datatype WishForm = WishForm(title: Option<string>, description: Option<string>, link: Option<string>, price: Option<string>)

  /** A JSON body that validated as `WishItemCreate`: the title is required. */
  datatype WishDraft = WishDraft(title: string, description: Option<string>, link: Option<string>, price: Option<string>, imagePath: Option<string>)

  /**
   * A set of field changes: a JSON body that validated as `WishItemUpdate`,
   * or the dictionary the handlers build; `None` means "not in the dictionary".
   */
  datatype WishChanges = WishChanges(
    title: Option<string>,
    description: Option<string>,
    link: Option<string>,
    price: Option<string>,
    imagePath: Option<string>)

  /**
   * A create or update request: the form fields, the `Content-Type` header
   * (`""` when it is missing), the JSON body if it parsed and validated
   * (`None` when reading it would raise), and the file part.
   */
  datatype WishRequest<Body> = WishRequest(form: WishForm, contentType: string, json: Option<Body>, image: Option<Upload>)

  /** What the `Content-Type` of a JSON body starts with. */
  const JsonContentType: string := "application/json"

  /** The handler reads the JSON body: no form title was sent and the body is declared JSON. */
  predicate ReadsJson<Body>(req: WishRequest<Body>)
  {
    req.form.title == None && StartsWith(req.contentType, JsonContentType)
  }

  /** The JSON body was to be read but is missing or invalid: the handler raises, which gives a 500. */
  predicate BadJson<Body>(req: WishRequest<Body>)
  {
    ReadsJson(req) && req.json == None
  }

  /**
   * The fields `create_wish` collects: those of the JSON body that are not
   * `None`, or all four form fields as they were sent.
   */
  function CreateData(req: WishRequest<WishDraft>): (r: WishChanges)
    requires !BadJson(req)
    ensures ReadsJson(req) ==> r.title == Some(req.json.value.title) && r.imagePath == req.json.value.imagePath
    ensures ReadsJson(req) ==>
      r.description == req.json.value.description && r.link == req.json.value.link && r.price == req.json.value.price
    ensures !ReadsJson(req) ==> r.title == req.form.title && r.imagePath == None
    ensures !ReadsJson(req) ==>
      r.description == req.form.description && r.link == req.form.link && r.price == req.form.price
  {
    if ReadsJson(req) then
      var d := req.json.value;
      WishChanges(Some(d.title), d.description, d.link, d.price, d.imagePath)
    else
      WishChanges(req.form.title, req.form.description, req.form.link, req.form.price, None)
  }

  /**
   * The row `create_wish` adds under `id`: the collected fields, the stored
   * image in place of any image path of the body, no reservation, and the
   * creation time `now`.
   */
  function NewWish(data: WishChanges, stored: Option<string>, id: int, now: int): (item: WishItem)
    requires Truthy(data.title)
    ensures item.id == Some(id) && item.createdAt == now && item.title == data.title.value && item.title != []
    ensures item.description == data.description && item.link == data.link && item.price == data.price
    ensures item.imagePath == if stored.Some? then stored else data.imagePath
    ensures IsFree(item) && Release(item) == item
  {
    WishItem(Some(id), data.title.value, data.description, data.link, data.price,
      None, None, None, None, now, if stored.Some? then stored else data.imagePath)
  }

  /**
   * The changes `update_wish` takes from the form: only the fields that were
   * sent and are not empty.
   */
  function FormChanges(form: WishForm): (r: WishChanges)
    ensures r.imagePath == None
    ensures r.title != None ==> Truthy(r.title) && r.title == form.title
    ensures r.description != None ==> Truthy(r.description) && r.description == form.description
    ensures r.link != None ==> Truthy(r.link) && r.link == form.link
    ensures r.price != None ==> Truthy(r.price) && r.price == form.price
    ensures Truthy(form.title) ==> r.title == form.title
    ensures Truthy(form.description) ==> r.description == form.description
    ensures Truthy(form.link) ==> r.link == form.link
    ensures Truthy(form.price) ==> r.price == form.price
  {
    WishChanges(
      if Truthy(form.title) then form.title else None,
      if Truthy(form.description) then form.description else None,
      if Truthy(form.link) then form.link else None,
      if Truthy(form.price) then form.price else None,
      None)
  }

  /** The changes `update_wish` applies before any image: the JSON body's, or the form's. */
  function UpdateData(req: WishRequest<WishChanges>): (r: WishChanges)
    requires !BadJson(req)
    ensures ReadsJson(req) ==> r == req.json.value
    ensures !ReadsJson(req) ==> r == FormChanges(req.form) && r.imagePath == None
  {
    if ReadsJson(req) then req.json.value else FormChanges(req.form)
  }

  /**
   * Everything `update_wish` writes: the changes of `UpdateData`, and the
   * path of the stored image in place of any image path when a file was sent.
   */
  function UpdateChanges(req: WishRequest<WishChanges>, token: string): (c: WishChanges)
    requires !BadJson(req) && !(HasFile(req.image) && !DeclaresImage(req.image.value))
    ensures c.(imagePath := UpdateData(req).imagePath) == UpdateData(req)
    ensures HasFile(req.image) ==> c.imagePath.Some? && StartsWith(c.imagePath.value, WishlistPrefix)
    ensures HasFile(req.image) ==> c.imagePath == StoredImagePath(req.image, token).value
    ensures !HasFile(req.image) ==> c.imagePath == UpdateData(req).imagePath
  {
    var data := UpdateData(req);
    if HasFile(req.image) then data.(imagePath := StoredImagePath(req.image, token).value) else data
  }

  /**
   * The `setattr` loop: every field that is in the changes is overwritten,
   * and nothing else changes (in particular the id, the creation time and
   * the reservation).
   */
  function ApplyChanges(item: WishItem, c: WishChanges): (r: WishItem)
    ensures r.(title := item.title, description := item.description, link := item.link,
               price := item.price, imagePath := item.imagePath) == item
    ensures c.title != None ==> r.title == c.title.value
    ensures c.title == None ==> r.title == item.title
    ensures r.description == (if c.description != None then c.description else item.description)
    ensures r.link == (if c.link != None then c.link else item.link)
    ensures r.price == (if c.price != None then c.price else item.price)
    ensures r.imagePath == (if c.imagePath != None then c.imagePath else item.imagePath)
  {
    item.(
      title := if c.title != None then c.title.value else item.title,
      description := if c.description != None then c.description else item.description,
      link := if c.link != None then c.link else item.link,
      price := if c.price != None then c.price else item.price,
      imagePath := if c.imagePath != None then c.imagePath else item.imagePath)
  }

  /** Sending the same changes twice has the effect of sending them once. */
  lemma ApplyChangesIdempotent(item: WishItem, c: WishChanges)
    ensures ApplyChanges(ApplyChanges(item, c), c) == ApplyChanges(item, c)
  {
  }

  /** A form update never empties a field: a field that was non-empty stays non-empty. */
  lemma FormUpdateKeepsValues(item: WishItem, form: WishForm)
    ensures var r := ApplyChanges(item, FormChanges(form));
      && (item.title != [] ==> r.title != [])
      && (Truthy(item.description) ==> Truthy(r.description))
      && (Truthy(item.link) ==> Truthy(r.link))
      && (Truthy(item.price) ==> Truthy(r.price))
      && r.imagePath == item.imagePath
  {
  }

  /** An empty form changes nothing. */
  lemma EmptyFormChangesNothing(item: WishItem, form: WishForm)
    requires !Truthy(form.title) && !Truthy(form.description) && !Truthy(form.link) && !Truthy(form.price)
    ensures ApplyChanges(item, FormChanges(form)) == item
  {
  }

  /**
   * Unlike creation, a JSON update may set an empty title: the title check
   * of `create_wish` has no counterpart in `update_wish`.
   */
  lemma JsonUpdateMayEmptyTitle(item: WishItem, c: WishChanges)
    requires c.title == Some([])
    ensures ApplyChanges(item, c).title == []
  {
  }

  // ---------------------------------------------------------------------
  // Reservation
  // ---------------------------------------------------------------------

  /** The body of a reservation: the reserver's name, and optionally a contact and a note. */
  datatype ReservePayload = ReservePayload(name: string, contact: Option<string>, note: Option<string>)

  /** The wish may be reserved: nobody, or a reserver with an empty name, holds it. */
  predicate IsFree(item: WishItem)
  {
    !Truthy(item.reservedBy)
  }

  /**
   * The four assignments of `reserve_wish`: the stripped name, the contact
   * and the note as sent, and the time `at`; nothing else changes.
   */
  function Reserve(item: WishItem, p: ReservePayload, at: int): (r: WishItem)
    ensures r.reservedBy == Some(Strip(p.name)) && r.reservedContact == p.contact
    ensures r.reservedNote == p.note && r.reservedAt == Some(at)
    ensures r.(reservedBy := item.reservedBy, reservedContact := item.reservedContact,
               reservedNote := item.reservedNote, reservedAt := item.reservedAt) == item
  {
    item.(reservedBy := Some(Strip(p.name)), reservedContact := p.contact, reservedNote := p.note, reservedAt := Some(at))
  }

  /** The four assignments of `release_wish`: every reservation field cleared; nothing else changes. */
  function Release(item: WishItem): (r: WishItem)
    ensures r.reservedBy == None && r.reservedContact == None && r.reservedNote == None && r.reservedAt == None
    ensures r.(reservedBy := item.reservedBy, reservedContact := item.reservedContact,
               reservedNote := item.reservedNote, reservedAt := item.reservedAt) == item
  {
    item.(reservedBy := None, reservedContact := None, reservedNote := None, reservedAt := None)
  }

  /** Releasing twice is releasing once. */
  lemma ReleaseIdempotent(item: WishItem)
    ensures Release(Release(item)) == Release(item)
  {
  }

  /** A released wish is free and shown as not reserved. */
  lemma ReleasedIsFree(item: WishItem)
    ensures IsFree(Release(item)) && !WishToPublic(Release(item), DataPrefix).reserved
  {
  }

  /** Reserving and then releasing leaves the wish as releasing alone would. */
  lemma ReserveThenRelease(item: WishItem, p: ReservePayload, at: int)
    ensures Release(Reserve(item, p, at)) == Release(item)
  {
  }

  /**
   * A reservation under a name that is not blank takes the wish: it is shown
   * as reserved and no longer free, so a second reservation is refused.
   */
  lemma ReservedIsTaken(item: WishItem, p: ReservePayload, at: int)
    requires exists i :: 0 <= i < |p.name| && !IsSpace(p.name[i])
    ensures !IsFree(Reserve(item, p, at)) && WishToPublic(Reserve(item, p, at), DataPrefix).reserved
  {
    StripBlank(p.name);
  }

  /**
   * A blank name is stored as the empty string: the wish is then shown as
   * reserved, yet it is still free and the next reservation replaces the
   * first.
   */
  lemma BlankNameShownReservedButFree(item: WishItem, p: ReservePayload, at: int, q: ReservePayload, later: int)
    requires forall i :: 0 <= i < |p.name| ==> IsSpace(p.name[i])
    ensures WishToPublic(Reserve(item, p, at), DataPrefix).reserved
    ensures IsFree(Reserve(item, p, at))
    ensures Reserve(Reserve(item, p, at), q, later) == Reserve(item, q, later)
  {
    StripBlank(p.name);
  }

  // ---------------------------------------------------------------------
  // The table
  // ---------------------------------------------------------------------

  /** When the wish was created. */
  function WishCreatedAt(item: WishItem): int
  {
    item.createdAt
  }

  /**
   * The wish table, with the SQL session as an in-memory map from id to
   * row. `media` is the set of image files written under the data
   * directory, by their relative paths.
   */
  class WishlistStore {
    var items: map<int, WishItem>
    /** The id the next created wish receives. */
    var nextId: int
    var media: set<string>

    /** Every row carries its own key as its id, and every id lies below `nextId`. */
    ghost predicate Valid()
      reads this
    {
      && nextId >= 1
      && forall k :: k in items ==> 1 <= k < nextId && items[k].id == Some(k)
    }

    constructor ()
      ensures Valid() && items == map[] && media == {}
    {
      items := map[];
      nextId := 1;
      media := {};
    }

    /** `_store_image`, with the file written recorded in `media`. */
    method StoreImage(upload: Option<Upload>, token: string) returns (r: Result<Option<string>, Failure>)
      modifies this`media
      ensures r == StoredImagePath(upload, token)
      ensures if r.Ok? && r.value.Some? then media == old(media) + {r.value.value} else media == old(media)
    {
      r := StoredImagePath(upload, token);
      if r.Ok? && r.value.Some? {
        media := media + {r.value.value};
      }
    }

    /**
     * `create_wish`: the admin gate; a JSON body that does not validate (500);
     * a missing or empty title (422) before any image is looked at; an upload
     * that is not an image (400) before any row is added; then a new row
     * under a fresh id.
     */
    method CreateWish(cred: Credentials, req: WishRequest<WishDraft>, token: string, now: int)
      returns (r: Result<WishPublic, Failure>)
      requires Valid()
      modifies this
      ensures Valid()
      ensures RequireAdmin(cred).Fail? ==> r == Err(RequireAdmin(cred).failure) && unchanged(this)
      ensures RequireAdmin(cred) == Pass && BadJson(req) ==> r == Err(ServerError) && unchanged(this)
      ensures RequireAdmin(cred) == Pass && !BadJson(req) && !Truthy(CreateData(req).title) ==>
        r == Err(Unprocessable) && unchanged(this)
      ensures RequireAdmin(cred) == Pass && !BadJson(req) && Truthy(CreateData(req).title)
              && StoredImagePath(req.image, token).Err? ==>
        r == Err(BadRequest) && unchanged(this)
      ensures RequireAdmin(cred) == Pass && !BadJson(req) && Truthy(CreateData(req).title)
              && StoredImagePath(req.image, token).Ok? ==>
        var stored := StoredImagePath(req.image, token).value;
        && old(nextId) !in old(items)
        && items == old(items)[old(nextId) := NewWish(CreateData(req), stored, old(nextId), now)]
        && nextId == old(nextId) + 1
        && media == old(media) + (if stored.Some? then {stored.value} else {})
        && r == Ok(WishToPublic(items[old(nextId)], DataPrefix))
    {
      var gate := RequireAdmin(cred);
      if gate.Fail? {
        return Err(gate.failure);
      }
      if BadJson(req) {
        return Err(ServerError);
      }
      var data := CreateData(req);
      if !Truthy(data.title) {
        return Err(Unprocessable);
      }
      var stored := StoreImage(req.image, token);
      if stored.Err? {
        return Err(stored.error);
      }
      var id := nextId;
      var item := NewWish(data, stored.value, id, now);
      items := items[id := item];
      nextId := id + 1;
      r := Ok(WishToPublic(item, DataPrefix));
    }

    /**
     * `update_wish`: the admin gate; an unknown id (404); a JSON body that
     * does not validate (500); an upload that is not an image (400); then
     * the changes are written into the row, a stored image replacing the
     * image path.
     */
    method UpdateWish(cred: Credentials, id: int, req: WishRequest<WishChanges>, token: string)
      returns (r: Result<WishPublic, Failure>)
      requires Valid()
      modifies this`items, this`media
      ensures Valid()
      ensures RequireAdmin(cred).Fail? ==> r == Err(RequireAdmin(cred).failure) && unchanged(this)
      ensures RequireAdmin(cred) == Pass && id !in old(items) ==> r == Err(NotFound) && unchanged(this)
      ensures RequireAdmin(cred) == Pass && id in old(items) && BadJson(req) ==> r == Err(ServerError) && unchanged(this)
      ensures RequireAdmin(cred) == Pass && id in old(items) && !BadJson(req)
              && HasFile(req.image) && !DeclaresImage(req.image.value) ==>
        r == Err(BadRequest) && unchanged(this)
      ensures RequireAdmin(cred) == Pass && id in old(items) && !BadJson(req)
              && !(HasFile(req.image) && !DeclaresImage(req.image.value)) ==>
        && items == old(items)[id := ApplyChanges(old(items)[id], UpdateChanges(req, token))]
        && media == old(media) + (if HasFile(req.image) then {StoredImagePath(req.image, token).value.value} else {})
        && r == Ok(WishToPublic(items[id], DataPrefix))
    {
      var gate := RequireAdmin(cred);
      if gate.Fail? {
        return Err(gate.failure);
      }
      if id !in items {
        return Err(NotFound);
      }
      if BadJson(req) {
        return Err(ServerError);
      }
      var changes := UpdateData(req);
      if HasFile(req.image) {
        var stored := StoreImage(req.image, token);
        if stored.Err? {
          return Err(stored.error);
        }
        changes := changes.(imagePath := stored.value);
      }
      assert changes == UpdateChanges(req, token);
      var view := WriteChanges(id, changes);
      r := Ok(view);
    }

    /** The write that ends `update_wish`: the changes go into the row under `id`, which keeps its id. */
    method WriteChanges(id: int, changes: WishChanges) returns (view: WishPublic)
      requires Valid() && id in items
      modifies this`items
      ensures Valid()
      ensures items == old(items)[id := ApplyChanges(old(items)[id], changes)]
      ensures view == WishToPublic(items[id], DataPrefix)
    {
      var item := ApplyChanges(items[id], changes);
      items := items[id := item];
      view := WishToPublic(item, DataPrefix);
    }

    /** `delete_wish`: the admin gate; an unknown id (404); the row is removed and its image file is kept. */
    method DeleteWish(cred: Credentials, id: int) returns (r: Outcome)
      requires Valid()
      modifies this`items
      ensures Valid()
      ensures RequireAdmin(cred).Fail? ==> r == RequireAdmin(cred) && items == old(items)
      ensures RequireAdmin(cred) == Pass && id !in old(items) ==> r == Fail(NotFound) && items == old(items)
      ensures RequireAdmin(cred) == Pass && id in old(items) ==> r == Pass && items == old(items) - {id}
    {
      r := RequireAdmin(cred);
      if r.Fail? {
        return;
      }
      if id !in items {
        return Fail(NotFound);
      }
      items := items - {id};
    }

    /**
     * `reserve_wish`, open to anyone: an unknown id (404); a wish whose
     * reserver has a non-empty name (409), leaving every row as it was;
     * otherwise the reservation is written at time `now`.
     */
    method ReserveWish(id: int, p: ReservePayload, now: int) returns (r: Result<WishPublic, Failure>)
      requires Valid()
      modifies this`items
      ensures Valid()
      ensures id !in old(items) ==> r == Err(NotFound) && items == old(items)
      ensures id in old(items) && !IsFree(old(items)[id]) ==> r == Err(Conflict) && items == old(items)
      ensures id in old(items) && IsFree(old(items)[id]) ==>
        && items == old(items)[id := Reserve(old(items)[id], p, now)]
        && r == Ok(WishToPublic(items[id], DataPrefix))
    {
      if id !in items {
        return Err(NotFound);
      }
      if !IsFree(items[id]) {
        return Err(Conflict);
      }
      var item := Reserve(items[id], p, now);
      items := items[id := item];
      r := Ok(WishToPublic(item, DataPrefix));
    }

    /** `release_wish`: the admin gate; an unknown id (404); otherwise the reservation is cleared, whatever it was. */
    method ReleaseWish(cred: Credentials, id: int) returns (r: Result<WishPublic, Failure>)
      requires Valid()
      modifies this`items
      ensures Valid()
      ensures RequireAdmin(cred).Fail? ==> r == Err(RequireAdmin(cred).failure) && items == old(items)
      ensures RequireAdmin(cred) == Pass && id !in old(items) ==> r == Err(NotFound) && items == old(items)
      ensures RequireAdmin(cred) == Pass && id in old(items) ==>
        && items == old(items)[id := Release(old(items)[id])]
        && r == Ok(WishToPublic(items[id], DataPrefix))
    {
      var gate := RequireAdmin(cred);
      if gate.Fail? {
        return Err(gate.failure);
      }
      if id !in items {
        return Err(NotFound);
      }
      var item := Release(items[id]);
      items := items[id := item];
      r := Ok(WishToPublic(item, DataPrefix));
    }

    /**
     * `list_wishlist`: every row exactly once, newest first, in its public
     * view; `ids` is the order of the rows.
     */
    method ListWishlist() returns (ids: seq<int>, views: seq<WishPublic>)
      requires Valid()
      ensures NewestFirst(ids, CreationTimes(items, WishCreatedAt)) && Enumerates(ids, CreationTimes(items, WishCreatedAt))
      ensures |views| == |ids|
      ensures forall i :: 0 <= i < |ids| ==> ids[i] in items && views[i] == WishToPublic(items[ids[i]], DataPrefix)
      ensures forall i :: 0 <= i < |ids| ==> views[i].id == ids[i]
    {
      var rows := items;
      ids := OrderNewestFirst(CreationTimes(rows, WishCreatedAt));
      views := seq(|ids|, i requires 0 <= i < |ids| && ids[i] in rows => WishToPublic(rows[ids[i]], DataPrefix));
    }
  }

  /**
   * Two reservations in a row: when the first succeeds under a name that is
   * not blank, the second is refused with 409 and the first reserver stays.
   */
  method ReserveTwice(store: WishlistStore, id: int, first: ReservePayload, second: ReservePayload, t1: int, t2: int)
    returns (r1: Result<WishPublic, Failure>, r2: Result<WishPublic, Failure>)
    requires store.Valid()
    requires exists i :: 0 <= i < |first.name| && !IsSpace(first.name[i])
    modifies store
    ensures r1.Ok? ==> r2 == Err(Conflict) && id in store.items && store.items[id].reservedBy == Some(Strip(first.name))
    ensures r1.Err? ==> (r1 == Err(NotFound) && r2 == Err(NotFound)) || (r1 == Err(Conflict) && r2 == Err(Conflict))
  {
    r1 := store.ReserveWish(id, first, t1);
    if r1.Ok? {
      ReservedIsTaken(old(store.items)[id], first, t1);
    }
    r2 := store.ReserveWish(id, second, t2);
  }

  /** Two releases in a row leave the same row and show the same view. */
  method ReleaseTwice(store: WishlistStore, cred: Credentials, id: int)
    returns (r1: Result<WishPublic, Failure>, r2: Result<WishPublic, Failure>)
    requires store.Valid()
    modifies store
    ensures r2 == r1
    ensures r1.Ok? ==> id in old(store.items) && store.items == old(store.items)[id := Release(old(store.items)[id])]
  {
    r1 := store.ReleaseWish(cred, id);
    r2 := store.ReleaseWish(cred, id);
  }
}
