/** backend/routes/upload.js: multer's storage and filter for product pictures and the
    `POST /api/upload` handler. The same rule, with other limits and folders, serves avatars
    (backend/routes/users.js) and post pictures (backend/routes/posts.js). */
module Upload {
  import opened Wrappers
  import opened Text

  /** A file as multer sees it before storing it. */
  datatype File = File(originalName: string, mimetype: string, size: nat)

  const MiB: nat := 1024 * 1024
  const ProductLimit: nat := 5 * MiB
  const AvatarLimit: nat := 2 * MiB
  const PostLimit: nat := 5 * MiB
  /** `upload.array('images', 5)`. */
  const PostMaxFiles: nat := 5

  /** `file.originalname.split('.').pop()`. */
  function Extension(name: string): (r: string)
    ensures '.' !in r
    ensures '.' !in name ==> r == name
  {
    LastSegment(name, '.')
  }

  /** The `filename` callback: `<Date.now()>.<ext>`. */
  function StoredName(f: File, nowMs: nat): string {
    Digits(nowMs) + "." + Extension(f.originalName)
  }

  /** The extension survives storage: reading it back from the stored name gives the original
      file's extension. */
  lemma StoredNameKeepsExtension(f: File, nowMs: nat)
    ensures Extension(StoredName(f, nowMs)) == Extension(f.originalName)
  {
    var d, e := Digits(nowMs), Extension(f.originalName);
    assert d + "." + e == d + ['.'] + e;
    LastSegmentAfter(d, '.', e);
  }

  /** The stored name starts with the timestamp's digits and then a dot. */
  lemma StoredNameStartsWithTimestamp(f: File, nowMs: nat)
    ensures StartsWith(StoredName(f, nowMs), Digits(nowMs) + ".")
  {
    var d := Digits(nowMs) + ".";
    assert StoredName(f, nowMs)[..|d|] == d;
  }

  /** The `fileFilter`: only image mimetypes. */
  predicate Accepts(f: File) {
    StartsWith(f.mimetype, "image/")
  }

  /** What a multer instance with `limit` makes of an upload: the stored name, or `None` for a
      rejected file (wrong type, or over the size limit). */
  function Receive(f: File, limit: nat, nowMs: nat): (r: Option<string>)
    ensures r.Some? <==> Accepts(f) && f.size <= limit
    ensures r.Some? ==> r.value == StoredName(f, nowMs)
  {
    if Accepts(f) && f.size <= limit then Some(StoredName(f, nowMs)) else None
  }

  /** What the filter and the size limit let through. */
  predicate Admitted(f: File, limit: nat) {
    Accepts(f) && f.size <= limit
  }

  /** The post-specific checks of one batch: each file admitted, each named in turn. */
  predicate AllAdmitted(files: seq<File>) {
    forall i :: 0 <= i < |files| ==> Admitted(files[i], PostLimit)
  }

  predicate NamedInOrder(names: seq<string>, files: seq<File>, times: seq<nat>)
    requires |times| == |files|
  {
    |names| == |files| && forall i :: 0 <= i < |files| ==> names[i] == StoredName(files[i], times[i])
  }

  /** `upload.array('images', PostMaxFiles)` with the post limit; `times[i]` is the clock when
      the `i`-th file is named. `None` when there are too many files or one is rejected. */
  function ReceivePostImages(files: seq<File>, times: seq<nat>): (r: Option<seq<string>>)
    requires |times| == |files|
    ensures r.Some? <==> |files| <= PostMaxFiles && AllAdmitted(files)
    ensures r.Some? ==> NamedInOrder(r.value, files, times)
  {
    ReceiveEachSpec(files, times);
    if |files| > PostMaxFiles then None else ReceiveEach(files, times)
  }

  /** Every file of the batch through the filter and the size limit, in order; `None` as soon
      as one is rejected. */
  function ReceiveEach(files: seq<File>, times: seq<nat>): Option<seq<string>>
    requires |times| == |files|
  {
    if files == [] then Some([])
    else if !Admitted(files[0], PostLimit) then None
    else match ReceiveEach(files[1..], times[1..])
      case None => None
      case Some(rest) => Some([StoredName(files[0], times[0])] + rest)
  }

  lemma AllAdmittedCons(files: seq<File>)
    requires files != []
    ensures AllAdmitted(files) <==> Admitted(files[0], PostLimit) && AllAdmitted(files[1..])
  {
    assert forall i :: 1 <= i < |files| ==> files[1..][i - 1] == files[i];
  }

  lemma NamedInOrderCons(names: seq<string>, files: seq<File>, times: seq<nat>)
    requires |times| == |files| && files != [] && |names| == |files|
    ensures NamedInOrder(names, files, times) <==>
      names[0] == StoredName(files[0], times[0]) && NamedInOrder(names[1..], files[1..], times[1..])
  {
    assert forall i :: 1 <= i < |files| ==>
      names[1..][i - 1] == names[i] && files[1..][i - 1] == files[i] && times[1..][i - 1] == times[i];
  }

  /** A batch is stored exactly when every file in it is admitted, under the names of its
      files in their order. */
  lemma {:induction false} ReceiveEachSpec(files: seq<File>, times: seq<nat>)
    requires |times| == |files|
    ensures ReceiveEach(files, times).Some? <==> AllAdmitted(files)
    ensures ReceiveEach(files, times).Some? ==> NamedInOrder(ReceiveEach(files, times).value, files, times)
  {
    if files != [] {
      ReceiveEachSpec(files[1..], times[1..]);
      AllAdmittedCons(files);
      var r := ReceiveEach(files, times);
      if r.Some? {
        var names := r.value;
        assert names[1..] == ReceiveEach(files[1..], times[1..]).value;
        NamedInOrderCons(names, files, times);
      }
    }
  }

  datatype Response = Response(status: int, url: Option<string>)

  /** `POST /api/upload` with the part named `file`. A rejected file reaches the application's
      error handler, which itself fails on the unbound name `multer`, so the answer is Express's
      default 500. No file gives 400; success gives the URL under `/uploads/products/`. */
  function UploadProduct(file: Option<File>, nowMs: nat): (r: Response)
    ensures file.None? ==> r == Response(400, None)
    ensures file.Some? && Receive(file.value, ProductLimit, nowMs).None? ==> r == Response(500, None)
    ensures file.Some? && Receive(file.value, ProductLimit, nowMs).Some? ==>
      r == Response(200, Some("/uploads/products/" + StoredName(file.value, nowMs)))
  {
    match file
    case None => Response(400, None)
    case Some(f) =>
      match Receive(f, ProductLimit, nowMs)
      case None => Response(500, None)
      case Some(name) => Response(200, Some("/uploads/products/" + name))
  }

  /** Every successful upload answers a URL under `/uploads/products/` whose extension is the
      original file's. */
  lemma UploadUrlShape(f: File, nowMs: nat)
    requires UploadProduct(Some(f), nowMs).status == 200
    ensures var url := UploadProduct(Some(f), nowMs).url;
      && url.Some? && StartsWith(url.value, "/uploads/products/")
      && Extension(url.value) == Extension(f.originalName)
  {
    var name := StoredName(f, nowMs);
    var url := "/uploads/products/" + name;
    assert url[..|"/uploads/products/"|] == "/uploads/products/";
    var d, e := "/uploads/products/" + Digits(nowMs), Extension(f.originalName);
    assert url == d + ['.'] + e;
    LastSegmentAfter(d, '.', e);
  }

  /** A picture the avatar route accepts is accepted by the product route, not conversely. */
  lemma AvatarLimitTighter(f: File, nowMs: nat)
    ensures Receive(f, AvatarLimit, nowMs).Some? ==> Receive(f, ProductLimit, nowMs).Some?
    ensures Receive(File("a.png", "image/png", ProductLimit), AvatarLimit, nowMs).None?
    ensures Receive(File("a.png", "image/png", ProductLimit), ProductLimit, nowMs).Some?
  {
    assert StartsWith("image/png", "image/");
  }
}
