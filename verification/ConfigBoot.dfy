/**
 The boot sequence of the remote configs: seed files that are missing, then
 hydrate the overlays that exist and bump the version of each one that gained
 something (app/routers/config.py).

 What can go wrong with a file on the way is part of the model: files that do not
 parse or that raise on reading, copies and writes that fail before the file was
 opened, inside the document or after it, versions that `int()` or `json.dumps`
 refuse, text that cannot be encoded, and a process that dies between two files
 or inside a write.
 */
module ConfigBoot {
  import opened Json
  import opened Options
  import opened ConfigOverlay

  /** A JSON file: its document, or text whose reading raises. JSONDecodeError is caught
      (Broken); anything else is not (Unreadable): bytes that are not UTF-8, an integer
      of too many digits, nesting too deep to parse. */
  datatype File = Parsed(doc: Json) | Broken(raw: string) | Unreadable(raw: string)

  /** What a write that stopped inside the document leaves: part of an object's text never
      parses. */
  type Wreck = f: File | !f.Parsed? witness Broken("")

  type Dir = map<string, File>

  /** What the operating system does to one file during one boot. */
  datatype Disk =
    | Good
    | NoSeed                  // seeding: OSError when the overlay is looked for
    | NoCopy                  // seeding: the copy fails and leaves nothing
    | CutCopy(partial: File)  // seeding: the copy fails and leaves something
    | NoLook                  // OSError when the overlay is looked for
    | NoBundle                // OSError when the bundle is read
    | NoOverlay               // OSError when the overlay is read
    | NoOpen                  // OSError when the overlay is opened for writing
    | CutWrite(left: Wreck)   // the overlay was emptied and not all of the document written
    | LateFail                // OSError when the document is in the file: at the last newline, or on closing

  /** Key order of the dictionaries; Python's `int()`, None when it raises; the least integer
      of too many digits to print; and whether a string can be encoded (one with a lone
      surrogate cannot). */
  datatype Env = Env(ord: KeyOrder, toInt: Json -> Option<int>, limit: int, encodable: string -> bool)

  ghost predicate Sane(env: Env) {
    && Enumerates(env.ord)
    && env.limit > 1
    && env.encodable(VERSION)
    && (forall n :: env.toInt(Int(n)) == Some(n))
    && (forall items :: env.toInt(Arr(items)) == None)
    && (forall fields :: env.toInt(Obj(fields)) == None)
    && (forall s :: env.toInt(Str(s)).Some? ==> env.encodable(s))
    && env.toInt(Null) == None
  }

  const VERSION := "version"

  // --------------------------------------------------------------- one file

  datatype Verdict = Left | Skipped | Wrote | Raised

  datatype Effect = Effect(file: File, verdict: Verdict)

  predicate BothDicts(b: File, o: File) {
    b.Parsed? && b.doc.Obj? && o.Parsed? && o.doc.Obj?
  }

  function Bumped(doc: Json, n: int): Json
    requires doc.Obj?
  {
    Obj(doc.fields[VERSION := Int(n + 1)])
  }

  /** Every key and every string of the document can be encoded. */
  predicate Clean(env: Env, j: Json) {
    match j
    case Str(s) => env.encodable(s)
    case Arr(items) => forall i :: 0 <= i < |items| ==> Clean(env, items[i])
    case Obj(fields) => forall k :: k in fields ==> env.encodable(k) && Clean(env, fields[k])
    case _ => true
  }

  /** What the hydration loop does about one bundled file and its overlay. */
  function HydrateFile(env: Env, disk: Disk, b: File, o: File): Effect {
    if disk.NoLook? then Effect(o, Raised)
    else if disk.NoBundle? || b.Broken? then Effect(o, Skipped)
    else if b.Unreadable? then Effect(o, Raised)
    else if disk.NoOverlay? || o.Broken? then Effect(o, Skipped)
    else if o.Unreadable? then Effect(o, Raised)
    else if !BothDicts(b, o) || Added(env.ord, b.doc, o.doc, []) == [] then Effect(o, Left)
    else
      var h := Hydrate(b.doc, o.doc);
      match (if VERSION in h.fields then env.toInt(h.fields[VERSION]) else Some(0))
      case None => Effect(o, Raised)
      case Some(n) => if n + 1 >= env.limit then Effect(o, Raised) else Save(env, disk, o, Bumped(h, n))
  }

  /** write_text: opening empties the file, then the text is encoded, then it is written. */
  function Save(env: Env, disk: Disk, o: File, doc: Json): Effect {
    if disk.NoOpen? then Effect(o, Skipped)
    else if !Clean(env, doc) then Effect(Broken(""), Raised)
    else if disk.CutWrite? then Effect(disk.left, Skipped)
    else if disk.LateFail? then Effect(Parsed(doc), Skipped)
    else Effect(Parsed(doc), Wrote)
  }

  // ------------------------------------------- what decides, seen beforehand

  predicate Gains(env: Env, b: File, o: File) {
    BothDicts(b, o) && Added(env.ord, b.doc, o.doc, []) != []
  }

  /** The version to bump, the overlay's own or else the bundle's, is none that can be. */
  predicate BadVersion(env: Env, b: Json, o: Json)
    requires b.Obj? && o.Obj?
  {
    (VERSION in o.fields || VERSION in b.fields)
    && match env.toInt(if VERSION in o.fields then o.fields[VERSION] else b.fields[VERSION])
       case None => true
       case Some(n) => n + 1 >= env.limit
  }

  /** The overlay, and every key and subtree it is given, can be encoded. */
  ghost predicate Encodes(env: Env, b: Json, o: Json) {
    Clean(env, o) && forall q :: AddedAt(b, o, q) ==> CleanAt(env, b, q)
  }

  ghost predicate CleanAt(env: Env, b: Json, q: Path) {
    q != [] && Lookup(b, q).Some? && env.encodable(q[|q| - 1]) && Clean(env, Lookup(b, q).value)
  }

  /** The boot comes to open the overlay for writing. */
  predicate Opens(env: Env, disk: Disk, b: File, o: File) {
    && !disk.NoLook? && !disk.NoBundle? && !disk.NoOverlay? && !disk.NoOpen?
    && Gains(env, b, o) && !BadVersion(env, b.doc, o.doc)
  }

  /** The new document reaches the file, whether or not the write is then reported to fail. */
  ghost predicate Lands(env: Env, disk: Disk, b: File, o: File) {
    Opens(env, disk, b, o) && Encodes(env, b.doc, o.doc) && !disk.CutWrite?
  }

  /** The overlay is emptied and not rewritten. */
  ghost predicate Tears(env: Env, disk: Disk, b: File, o: File) {
    Opens(env, disk, b, o) && (disk.CutWrite? || !Encodes(env, b.doc, o.doc))
  }

  /** The file raises out of the loop: it cannot be looked for, one of the two cannot be read,
      or the overlay gains something and has a version that cannot be bumped or text that
      cannot be encoded. */
  ghost predicate Poisoned(env: Env, disk: Disk, b: File, o: File) {
    || disk.NoLook?
    || (!disk.NoBundle? && b.Unreadable?)
    || (!disk.NoBundle? && !disk.NoOverlay? && b.Parsed? && o.Unreadable?)
    || (!disk.NoBundle? && !disk.NoOverlay? && Gains(env, b, o) && BadVersion(env, b.doc, o.doc))
    || (Opens(env, disk, b, o) && !Encodes(env, b.doc, o.doc))
  }

  lemma CleanByChildren(env: Env, j: Json)
    requires j.Obj? || j.Arr?
    ensures Clean(env, j) <==> forall tok :: Child(j, tok).Some? ==> CleanChild(env, j, tok)
  {
    if j.Arr? {
      forall i | 0 <= i < |j.items|
        ensures Child(j, Decimal(i)) == Some(j.items[i])
      {
        DecimalRoundTrip(i);
      }
    } else {
      assert forall k :: k in j.fields ==> Child(j, k) == Some(j.fields[k]);
    }
  }

  predicate CleanChild(env: Env, j: Json, tok: string)
    requires Child(j, tok).Some?
  {
    (j.Obj? ==> env.encodable(tok)) && Clean(env, Child(j, tok).value)
  }

  /** Hydration brings in no text but the overlay's and that of what it adds. */
  lemma {:induction false} HydratedIsCleanIff(env: Env, b: Json, o: Json)
    ensures Clean(env, Hydrate(b, o)) <==> Encodes(env, b, o)
    decreases b
  {
    if Descends(b, o) {
      var h := Hydrate(b, o);
      CleanByChildren(env, h);
      CleanByChildren(env, o);
      forall tok | Child(b, tok).Some? && Child(o, tok).Some?
        ensures Clean(env, Hydrate(Child(b, tok).value, Child(o, tok).value)) <==>
                Encodes(env, Child(b, tok).value, Child(o, tok).value)
      {
        HydratedIsCleanIff(env, Child(b, tok).value, Child(o, tok).value);
      }
      if Clean(env, h) {
        CleanHydrationEncodes(env, b, o);
      }
      if Encodes(env, b, o) {
        EncodingIsClean(env, b, o);
      }
    }
  }

  lemma CleanHydrationEncodes(env: Env, b: Json, o: Json)
    requires Descends(b, o) && Clean(env, Hydrate(b, o))
    requires forall tok :: Child(b, tok).Some? && Child(o, tok).Some? ==>
               Clean(env, Hydrate(Child(b, tok).value, Child(o, tok).value)) ==>
                 Encodes(env, Child(b, tok).value, Child(o, tok).value)
    ensures Encodes(env, b, o)
  {
    var h := Hydrate(b, o);
    CleanByChildren(env, h);
    CleanByChildren(env, o);
    forall tok | Child(o, tok).Some?
      ensures CleanChild(env, o, tok)
    {
      HydrateChild(b, o, tok);
      assert CleanChild(env, h, tok);
    }
    forall q | AddedAt(b, o, q)
      ensures CleanAt(env, b, q)
    {
      HydrateChild(b, o, q[0]);
      assert CleanChild(env, h, q[0]);
      if Child(o, q[0]).Some? {
        assert CleanAt(env, Child(b, q[0]).value, q[1..]);
      } else {
        AddedHasKeys(b, o, q[0]);
        assert q == [q[0]] && Lookup(b, q) == Lookup(Child(b, q[0]).value, []);
      }
    }
  }

  /** Only dictionaries gain children: lists that are walked are equally long. */
  lemma AddedHasKeys(b: Json, o: Json, tok: string)
    requires Descends(b, o) && Child(b, tok).Some? && Child(o, tok).None?
    ensures b.Obj? && o.Obj?
  {
  }

  lemma EncodingIsClean(env: Env, b: Json, o: Json)
    requires Descends(b, o) && Encodes(env, b, o)
    requires forall tok :: Child(b, tok).Some? && Child(o, tok).Some? ==>
               Encodes(env, Child(b, tok).value, Child(o, tok).value) ==>
                 Clean(env, Hydrate(Child(b, tok).value, Child(o, tok).value))
    ensures Clean(env, Hydrate(b, o))
  {
    var h := Hydrate(b, o);
    CleanByChildren(env, h);
    CleanByChildren(env, o);
    forall tok | Child(h, tok).Some?
      ensures CleanChild(env, h, tok)
    {
      HydrateChild(b, o, tok);
      if Child(o, tok).None? {
        assert AddedAt(b, o, [tok]);
        assert Lookup(b, [tok]) == Lookup(Child(b, tok).value, []);
      } else {
        assert CleanChild(env, o, tok);
        if Child(b, tok).Some? {
          ChildEncodes(env, b, o, tok);
        }
      }
    }
  }

  lemma ChildEncodes(env: Env, b: Json, o: Json, tok: string)
    requires Descends(b, o) && Encodes(env, b, o) && Child(b, tok).Some? && Child(o, tok).Some?
    ensures Encodes(env, Child(b, tok).value, Child(o, tok).value)
  {
    CleanByChildren(env, o);
    assert CleanChild(env, o, tok);
    var bc, oc := Child(b, tok).value, Child(o, tok).value;
    forall q | AddedAt(bc, oc, q)
      ensures CleanAt(env, bc, q)
    {
      var whole := [tok] + q;
      assert whole[1..] == q;
      assert AddedAt(b, o, whole);
      assert CleanAt(env, b, whole);
    }
  }

  lemma BumpKeepsClean(env: Env, h: Json, n: int)
    requires env.encodable(VERSION) && h.Obj? && (VERSION in h.fields ==> Clean(env, h.fields[VERSION]))
    ensures Clean(env, Bumped(h, n)) <==> Clean(env, h)
  {
    var d := Bumped(h, n);
    assert forall k :: k in d.fields && k != VERSION ==> k in h.fields && d.fields[k] == h.fields[k];
    assert forall k :: k in h.fields ==> k in d.fields;
  }

  lemma MissingKeyIsGained(env: Env, b: Json, o: Json, k: string)
    requires Sane(env) && b.Obj? && o.Obj? && k in b.fields && k !in o.fields
    ensures Gains(env, Parsed(b), Parsed(o))
  {
    assert k in Hydrate(b, o).fields;
    NothingAddedIffUnchanged(env.ord, b, o, []);
  }

  /** The version found after hydration is the one to look at before. */
  lemma VersionSeenBefore(env: Env, b: Json, o: Json)
    requires Sane(env) && b.Obj? && o.Obj?
    ensures var h := Hydrate(b, o);
            var n := if VERSION in h.fields then env.toInt(h.fields[VERSION]) else Some(0);
            && (BadVersion(env, b, o) <==> n.None? || n.value + 1 >= env.limit)
            && (n.Some? ==> (Clean(env, Bumped(h, n.value)) <==> Clean(env, h)))
  {
    var h := Hydrate(b, o);
    if VERSION in o.fields && VERSION in b.fields {
      var bv, ov := b.fields[VERSION], o.fields[VERSION];
      assert Hydrate(bv, ov) == ov || (ov.Obj? && Hydrate(bv, ov).Obj?) || (ov.Arr? && Hydrate(bv, ov).Arr?);
    }
    var n := if VERSION in h.fields then env.toInt(h.fields[VERSION]) else Some(0);
    if n.Some? {
      BumpKeepsClean(env, h, n.value);
    }
  }

  /** The boot is documented never to raise. It raises exactly on a poisoned file. */
  lemma RaisesIffPoisoned(env: Env, disk: Disk, b: File, o: File)
    requires Sane(env)
    ensures HydrateFile(env, disk, b, o).verdict == Raised <==> Poisoned(env, disk, b, o)
  {
    if Gains(env, b, o) {
      VersionSeenBefore(env, b.doc, o.doc);
      HydratedIsCleanIff(env, b.doc, o.doc);
    }
  }

  /** The overlay afterwards: rewritten exactly if its write lands, wrecked exactly if the
      write tears it, and in every other case, raising or not, the file it was. */
  lemma WrittenTornOrLeft(env: Env, disk: Disk, b: File, o: File)
    requires Sane(env)
    ensures var e := HydrateFile(env, disk, b, o);
            && (e.verdict == Wrote <==> Lands(env, disk, b, o) && !disk.LateFail?)
            && (Lands(env, disk, b, o) ==>
                  exists n :: e.file == Parsed(Bumped(Hydrate(b.doc, o.doc), n)) && SavedVersion(env, b.doc, o.doc, n))
            && (Tears(env, disk, b, o) ==> !e.file.Parsed?)
            && (Tears(env, disk, b, o) && Encodes(env, b.doc, o.doc) ==> disk.CutWrite? && e.file == disk.left)
            && (Tears(env, disk, b, o) && !Encodes(env, b.doc, o.doc) ==> e.file == Broken(""))
            && (!Lands(env, disk, b, o) && !Tears(env, disk, b, o) ==> e.file == o)
  {
    if Gains(env, b, o) {
      VersionSeenBefore(env, b.doc, o.doc);
      HydratedIsCleanIff(env, b.doc, o.doc);
      var h := Hydrate(b.doc, o.doc);
      if Lands(env, disk, b, o) {
        var n := if VERSION in h.fields then env.toInt(h.fields[VERSION]).value else 0;
        assert SavedVersion(env, b.doc, o.doc, n);
      }
    }
  }

  /** The number that is bumped. */
  ghost predicate SavedVersion(env: Env, b: Json, o: Json, n: int)
    requires b.Obj? && o.Obj?
  {
    var h := Hydrate(b, o);
    Some(n) == if VERSION in h.fields then env.toInt(h.fields[VERSION]) else Some(0)
  }

  /** The version to bump: the overlay's, else the bundle's, else none; None if `int()` raises. */
  function HeldVersion(env: Env, b: Json, o: Json): Option<int>
    requires b.Obj? && o.Obj?
  {
    if "version" in o.fields then env.toInt(o.fields["version"])
    else if "version" in b.fields then env.toInt(b.fields["version"])
    else Some(0)
  }

  /** An overlay that gains something, on a disk that does its part, is rewritten exactly if the
      version to bump is an integer to Python and can be printed after the bump. */
  lemma WrittenExactlyIfBumpable(env: Env, b: Json, o: Json)
    requires Sane(env) && b.Obj? && o.Obj? && Hydrate(b, o) != o && Encodes(env, b, o)
    ensures var n := HeldVersion(env, b, o);
            HydrateFile(env, Good, Parsed(b), Parsed(o)) ==
            if n.Some? && n.value + 1 < env.limit then Effect(Parsed(Bumped(Hydrate(b, o), n.value)), Wrote)
            else Effect(Parsed(o), Raised)
  {
    NothingAddedIffUnchanged(env.ord, b, o, []);
    HydratedVersionIsHeld(env, b, o);
    var n := HeldVersion(env, b, o);
    if n.Some? {
      HydratedIsCleanIff(env, b, o);
      VersionSeenBefore(env, b, o);
    }
    GainingFileIs(env, b, o, n);
  }

  lemma HydratedVersionIsHeld(env: Env, b: Json, o: Json)
    requires Sane(env) && b.Obj? && o.Obj?
    ensures var h := Hydrate(b, o);
            HeldVersion(env, b, o) == if VERSION in h.fields then env.toInt(h.fields[VERSION]) else Some(0)
  {
    VersionIsTheOverlays(env, b, o);
  }

  lemma GainingFileIs(env: Env, b: Json, o: Json, n: Option<int>)
    requires b.Obj? && o.Obj? && Gains(env, Parsed(b), Parsed(o))
    requires var h := Hydrate(b, o); n == if VERSION in h.fields then env.toInt(h.fields[VERSION]) else Some(0)
    requires n.Some? ==> Clean(env, Bumped(Hydrate(b, o), n.value))
    ensures HydrateFile(env, Good, Parsed(b), Parsed(o)) ==
            if n.Some? && n.value + 1 < env.limit then Effect(Parsed(Bumped(Hydrate(b, o), n.value)), Wrote)
            else Effect(Parsed(o), Raised)
  {
  }

  /** The document that is written: the version is one more, 1 if there was none, and
      everything else is what hydration made of it. */
  lemma WrittenDocument(env: Env, b: Json, o: Json)
    requires Sane(env) && b.Obj? && o.Obj? && Hydrate(b, o) != o && Encodes(env, b, o)
    requires HeldVersion(env, b, o).Some? && HeldVersion(env, b, o).value + 1 < env.limit
    ensures var e := HydrateFile(env, Good, Parsed(b), Parsed(o));
            && e.verdict == Wrote && e.file.Parsed? && e.file.doc.Obj?
            && e.file.doc.fields.Keys == Hydrate(b, o).fields.Keys + {"version"}
            && e.file.doc.fields["version"] == Int(HeldVersion(env, b, o).value + 1)
            && forall k :: k in e.file.doc.fields && k != "version" ==>
                 e.file.doc.fields[k] == Hydrate(b, o).fields[k]
  {
    WrittenExactlyIfBumpable(env, b, o);
  }

  lemma VersionIsTheOverlays(env: Env, b: Json, o: Json)
    requires Sane(env) && b.Obj? && o.Obj?
    ensures var h := Hydrate(b, o);
            && (VERSION in h.fields <==> VERSION in o.fields || VERSION in b.fields)
            && (VERSION in o.fields ==> env.toInt(h.fields[VERSION]) == env.toInt(o.fields[VERSION]))
            && (VERSION in b.fields && VERSION !in o.fields ==> h.fields[VERSION] == b.fields[VERSION])
  {
    if VERSION in o.fields && VERSION in b.fields {
      var bv, ov := b.fields[VERSION], o.fields[VERSION];
      assert Hydrate(bv, ov) == ov || (ov.Obj? && Hydrate(bv, ov).Obj?) || (ov.Arr? && Hydrate(bv, ov).Arr?);
    }
  }

  /** The value's own text: itself if it is a string, its keys if it is a dictionary. */
  predicate TextIsClean(env: Env, j: Json) {
    match j
    case Str(s) => env.encodable(s)
    case Obj(fields) => forall k :: k in fields ==> env.encodable(k)
    case _ => true
  }

  ghost predicate CleanThroughout(env: Env, j: Json) {
    forall p :: Lookup(j, p).Some? ==> TextIsClean(env, Lookup(j, p).value)
  }

  /** Text that can be encoded: every key and every string of the document, wherever it is. */
  lemma {:induction false} CleanMeans(env: Env, j: Json)
    ensures Clean(env, j) <==> CleanThroughout(env, j)
    decreases j
  {
    CleanFromTop(env, j);
    if j.Obj? || j.Arr? {
      CleanByChildren(env, j);
      forall tok | Child(j, tok).Some?
        ensures Clean(env, Child(j, tok).value) <==> CleanThroughout(env, Child(j, tok).value)
      {
        CleanMeans(env, Child(j, tok).value);
      }
      OwnText(env, j);
    }
  }

  lemma OwnText(env: Env, j: Json)
    requires j.Obj? || j.Arr?
    ensures TextIsClean(env, j) <==> forall tok :: Child(j, tok).Some? && j.Obj? ==> env.encodable(tok)
  {
    if j.Obj? {
      assert forall k :: k in j.fields <==> Child(j, k).Some?;
    }
  }

  lemma CleanFromTop(env: Env, j: Json)
    ensures CleanThroughout(env, j) <==>
            TextIsClean(env, j) && forall tok :: Child(j, tok).Some? ==> CleanThroughout(env, Child(j, tok).value)
  {
    assert Lookup(j, []) == Some(j);
    if CleanThroughout(env, j) {
      forall tok | Child(j, tok).Some?
        ensures CleanThroughout(env, Child(j, tok).value)
      {
        forall p | Lookup(Child(j, tok).value, p).Some?
          ensures TextIsClean(env, Lookup(Child(j, tok).value, p).value)
        {
          var q := [tok] + p;
          assert q[0] == tok && q[1..] == p;
          assert Lookup(j, q) == Lookup(Child(j, tok).value, p);
        }
      }
    } else {
      var p :| Lookup(j, p).Some? && !TextIsClean(env, Lookup(j, p).value);
      if p != [] {
        assert Lookup(j, p) == Lookup(Child(j, p[0]).value, p[1..]);
        assert !CleanThroughout(env, Child(j, p[0]).value);
      }
    }
  }

  lemma NullVersionRaises(env: Env)
    requires Sane(env)
    ensures var b, o := Parsed(Obj(map["limit" := Int(5)])), Parsed(Obj(map[VERSION := Null]));
            HydrateFile(env, Good, b, o) == Effect(o, Raised)
  {
    var b, o := Obj(map["limit" := Int(5)]), Obj(map[VERSION := Null]);
    MissingKeyIsGained(env, b, o, "limit");
    VersionSeenBefore(env, b, o);
  }

  /** Adding a key to an overlay that holds a lone surrogate empties the file and raises. */
  lemma UnencodableOverlayRaises(env: Env, v: string)
    requires Sane(env) && !env.encodable(v)
    ensures var b, o := Parsed(Obj(map["limit" := Int(5)])), Parsed(Obj(map["name" := Str(v)]));
            HydrateFile(env, Good, b, o) == Effect(Broken(""), Raised)
  {
    var b, o := Obj(map["limit" := Int(5)]), Obj(map["name" := Str(v)]);
    MissingKeyIsGained(env, b, o, "limit");
    UnversionedIsSaved(env, b, o);
    assert !Clean(env, o.fields["name"]);
    HydratedIsCleanIff(env, b, o);
    BumpKeepsClean(env, Hydrate(b, o), 0);
  }

  lemma UnversionedIsSaved(env: Env, b: Json, o: Json)
    requires Sane(env) && Gains(env, Parsed(b), Parsed(o)) && VERSION !in b.fields && VERSION !in o.fields
    ensures VERSION !in Hydrate(b, o).fields
    ensures HydrateFile(env, Good, Parsed(b), Parsed(o)) == Save(env, Good, Parsed(o), Bumped(Hydrate(b, o), 0))
  {
  }

  /** A version the overlay already holds rises by exactly one when the write lands, and is
      what it was when nothing is written or torn. */
  lemma VersionRisesByOne(env: Env, disk: Disk, b: File, o: File, n: int)
    requires Sane(env) && HoldsVersion(o, n) && !Tears(env, disk, b, o)
    ensures HoldsVersion(HydrateFile(env, disk, b, o).file, if Lands(env, disk, b, o) then n + 1 else n)
  {
    WrittenTornOrLeft(env, disk, b, o);
    if Lands(env, disk, b, o) {
      HydrateChild(b.doc, o.doc, VERSION);
    }
  }

  ghost predicate HoldsVersion(f: File, n: int) {
    f.Parsed? && f.doc.Obj? && VERSION in f.doc.fields && f.doc.fields[VERSION] == Int(n)
  }

  /** Bumping the version gives hydration nothing new to add. */
  lemma {:induction false} BumpAddsNothing(env: Env, b: Json, h: Json, n: int, toks: seq<string>)
    requires b.Obj? && h.Obj? && AddedBelow(env.ord, b, h, [], toks) == []
    ensures AddedBelow(env.ord, b, Bumped(h, n), [], toks) == []
    decreases |toks|
  {
    if toks != [] {
      BumpAddsNothing(env, b, h, n, toks[1..]);
    }
  }

  lemma NoGainNoWrite(env: Env, disk: Disk, b: File, o: File)
    requires !Gains(env, b, o)
    ensures var e := HydrateFile(env, disk, b, o); e.file == o && e.verdict != Wrote
  {
  }

  lemma LandedGainsNothing(env: Env, b: File, o: File)
    requires Sane(env) && Lands(env, Good, b, o)
    ensures !Gains(env, b, HydrateFile(env, Good, b, o).file)
  {
    WrittenTornOrLeft(env, Good, b, o);
    var h := Hydrate(b.doc, o.doc);
    HydrationKeepsDrift(env.ord, b.doc, o.doc, []);
    var n :| HydrateFile(env, Good, b, o).file == Parsed(Bumped(h, n)) && SavedVersion(env, b.doc, o.doc, n);
    BumpAddsNothing(env, b.doc, h, n, Tokens(env.ord, b.doc, []));
  }

  /** Once a boot has dealt with a file, whichever way that went, the next boot with the same
      bundle does not touch it. */
  lemma DealtWithIsSettled(env: Env, b: File, o: File, disk: Disk)
    requires Sane(env)
    ensures var e := HydrateFile(env, disk, b, HydrateFile(env, Good, b, o).file);
            e.file == HydrateFile(env, Good, b, o).file && e.verdict != Wrote
  {
    WrittenTornOrLeft(env, Good, b, o);
    var f := HydrateFile(env, Good, b, o).file;
    if Lands(env, Good, b, o) {
      LandedGainsNothing(env, b, o);
    }
    if Gains(env, b, f) {
      assert f == o && BadVersion(env, b.doc, o.doc);
      WrittenTornOrLeft(env, disk, b, o);
    } else {
      NoGainNoWrite(env, disk, b, f);
    }
  }

  /** A fresh copy of a bundle is never touched. */
  lemma FreshCopyIsLeft(env: Env, b: File, disk: Disk)
    ensures var e := HydrateFile(env, disk, b, b); e.file == b && e.verdict != Wrote
  {
    if BothDicts(b, b) {
      NothingAgainstItself(env.ord, b.doc, []);
    }
    NoGainNoWrite(env, disk, b, b);
  }

  /** A write that fails once the document is in the file differs only in what is reported. */
  lemma LateFailIsOnlyReported(env: Env, b: File, o: File)
    ensures HydrateFile(env, LateFail, b, o).file == HydrateFile(env, Good, b, o).file
    ensures HydrateFile(env, Good, b, o).verdict != HydrateFile(env, LateFail, b, o).verdict ==>
              HydrateFile(env, Good, b, o).verdict == Wrote && HydrateFile(env, LateFail, b, o).verdict == Skipped
  {
  }

  /** What detect_overlay_drift reports of one file, the bundle's version set aside; None
      when reading raises. */
  function Detected(env: Env, b: File, o: File): Option<seq<Path>> {
    if b.Unreadable? || (b.Parsed? && o.Unreadable?) then None
    else if BothDicts(b, o) then Some(Drifted(env.ord, Obj(b.doc.fields - {VERSION}), o.doc, []))
    else Some([])
  }

  /** The detector raises exactly on the text that raises hydration; of two dictionaries it
      reports the drift against the bundle without its version, of anything else nothing. */
  lemma DetectedMeans(env: Env, b: File, o: File)
    ensures Detected(env, b, o).None? <==>
            (exists raw :: b == Unreadable(raw)) || ((exists d :: b == Parsed(d)) && exists raw :: o == Unreadable(raw))
    ensures forall d, e :: b == Parsed(Obj(d)) && o == Parsed(Obj(e)) ==>
              Detected(env, b, o) == Some(Drifted(env.ord, Obj(map k | k in d && k != "version" :: d[k]), Obj(e), []))
    ensures (forall raw :: o != Unreadable(raw)) && (forall d, e :: b != Parsed(Obj(d)) || o != Parsed(Obj(e))) ==>
              Detected(env, b, o) in {None, Some([])}
  {
    if b.Parsed? && b.doc.Obj? {
      assert b.doc.fields - {VERSION} == map k | k in b.doc.fields && k != "version" :: b.doc.fields[k];
    }
  }

  lemma {:induction false} DriftIgnoresBump(env: Env, b: Json, o: Json, n: int, toks: seq<string>)
    requires b.Obj? && o.Obj?
    ensures var rest := Obj(b.fields - {VERSION});
            DriftedBelow(env.ord, rest, Bumped(Hydrate(b, o), n), [], toks) == DriftedBelow(env.ord, rest, o, [], toks)
    decreases |toks|
  {
    if toks != [] {
      var tok := toks[0];
      DriftIgnoresBump(env, b, o, n, toks[1..]);
      if tok != VERSION && Child(b, tok).Some? {
        HydrateChild(b, o, tok);
        assert Child(Obj(b.fields - {VERSION}), tok) == Child(b, tok);
        if Child(o, tok).Some? {
          HydrationKeepsDrift(env.ord, Child(b, tok).value, Child(o, tok).value, [] + [tok]);
        } else {
          NothingAgainstItself(env.ord, Child(b, tok).value, [] + [tok]);
        }
      } else {
        assert Child(Obj(b.fields - {VERSION}), tok) == None;
      }
    }
  }

  lemma BumpKeepsDrift(env: Env, b: Json, o: Json, n: int)
    requires b.Obj? && o.Obj?
    ensures Detected(env, Parsed(b), Parsed(Bumped(Hydrate(b, o), n))) == Detected(env, Parsed(b), Parsed(o))
  {
    DriftIgnoresBump(env, b, o, n, Tokens(env.ord, Obj(b.fields - {VERSION}), []));
  }

  /** A boot that does not tear a file leaves the drift reported for it as it was. */
  lemma BootKeepsDetectedDrift(env: Env, disk: Disk, b: File, o: File)
    requires Sane(env) && !Tears(env, disk, b, o)
    ensures Detected(env, b, HydrateFile(env, disk, b, o).file) == Detected(env, b, o)
  {
    WrittenTornOrLeft(env, disk, b, o);
    if Lands(env, disk, b, o) {
      var h := Hydrate(b.doc, o.doc);
      var n :| HydrateFile(env, disk, b, o).file == Parsed(Bumped(h, n)) && SavedVersion(env, b.doc, o.doc, n);
      BumpKeepsDrift(env, b.doc, o.doc, n);
    }
  }

  // -------------------------------------------------------------- directories

  /** Seeding raises at a file: it cannot be looked for, or is missing and cannot be copied. */
  predicate SeedFails(disk: Disk, present: bool) {
    disk.NoSeed? || (!present && (disk.NoCopy? || disk.CutCopy?))
  }

  /** The directory after the seeding loop has been at the files of `seeded`. */
  function Seeded(bundles: Dir, dir: Dir, disk: string -> Disk, seeded: set<string>): Dir {
    map s | s in dir.Keys + bundles.Keys && (s in dir || (s in seeded && !disk(s).NoSeed? && !disk(s).NoCopy?)) ::
      if s in dir then dir[s] else if disk(s).CutCopy? then disk(s).partial else bundles[s]
  }

  /** The directory after the hydration loop has been at the files of `reached`. */
  function Hydrated(env: Env, bundles: Dir, dir: Dir, disk: string -> Disk, reached: set<string>): Dir {
    map s | s in dir ::
      if s in reached && s in bundles then HydrateFile(env, disk(s), bundles[s], dir[s]).file else dir[s]
  }

  /** One boot, finished or not: the files each loop got to, and what the disk did. */
  datatype Boot = Boot(bundles: Dir, seeded: set<string>, reached: set<string>, disk: string -> Disk)

  function Booted(env: Env, b: Boot, dir: Dir): Dir {
    Hydrated(env, b.bundles, Seeded(b.bundles, dir, b.disk, b.seeded), b.disk, b.reached)
  }

  function Run(env: Env, dir: Dir, boots: seq<Boot>): Dir
    decreases |boots|
  {
    if boots == [] then dir else Run(env, Booted(env, boots[0], dir), boots[1..])
  }

  /** The boot comes to hydrate an overlay that is already there. */
  predicate Visits(b: Boot, s: string) {
    s in b.reached && s in b.bundles
  }

  /** No boot of the run empties the file without rewriting it. */
  ghost predicate Spared(env: Env, dir: Dir, boots: seq<Boot>, s: string)
    requires s in dir
    decreases |boots|
  {
    boots == []
    || (var b := boots[0];
        (Visits(b, s) ==> !Tears(env, b.disk(s), b.bundles[s], dir[s]))
        && Spared(env, Booted(env, b, dir), boots[1..], s))
  }

  /** How many boots had something to add to the file and got it there. */
  ghost function Additions(env: Env, dir: Dir, boots: seq<Boot>, s: string): nat
    requires s in dir
    decreases |boots|
  {
    if boots == [] then 0
    else
      var b := boots[0];
      (if Visits(b, s) && Lands(env, b.disk(s), b.bundles[s], dir[s]) then 1 else 0)
      + Additions(env, Booted(env, b, dir), boots[1..], s)
  }

  /** A file that does not parse stays as it is: nothing seeds or hydrates it any more. */
  lemma {:induction false} WreckStays(env: Env, dir: Dir, boots: seq<Boot>, s: string)
    requires s in dir && !dir[s].Parsed?
    ensures s in Run(env, dir, boots) && Run(env, dir, boots)[s] == dir[s]
    decreases |boots|
  {
    if boots != [] {
      WreckStays(env, Booted(env, boots[0], dir), boots[1..], s);
    }
  }

  /** The value, if it has not been lost: still there in a file that parses. */
  predicate Holds(f: File, p: Path, v: Json) {
    f.Parsed? && Lookup(f.doc, p).Some? && Kept(v, Lookup(f.doc, p).value)
  }

  lemma FileKeepsValue(env: Env, disk: Disk, b: File, o: File, p: Path, v: Json)
    requires Sane(env) && Holds(o, p, v) && p != [] && p[0] != VERSION && !Tears(env, disk, b, o)
    ensures Holds(HydrateFile(env, disk, b, o).file, p, v)
  {
    WrittenTornOrLeft(env, disk, b, o);
    if Lands(env, disk, b, o) {
      HydrationKeepsValues(b.doc, o.doc, p);
      assert Child(HydrateFile(env, disk, b, o).file.doc, p[0]) == Child(Hydrate(b.doc, o.doc), p[0]);
      KeptTransitive(v, Lookup(o.doc, p).value, Lookup(Hydrate(b.doc, o.doc), p).value);
    }
  }

  /** Over any boots with any bundles, every value an overlay held, other than its version,
      is still held, exactly unless some boot tore the file. */
  lemma {:induction false} RunKeepsValues(env: Env, dir: Dir, boots: seq<Boot>, s: string, p: Path, v: Json)
    requires Sane(env) && s in dir && Holds(dir[s], p, v) && p != [] && p[0] != VERSION
    ensures s in Run(env, dir, boots)
    ensures Spared(env, dir, boots, s) <==> Holds(Run(env, dir, boots)[s], p, v)
    decreases |boots|
  {
    if boots != [] {
      var b := boots[0];
      var next := Booted(env, b, dir);
      if Visits(b, s) && Tears(env, b.disk(s), b.bundles[s], dir[s]) {
        WrittenTornOrLeft(env, b.disk(s), b.bundles[s], dir[s]);
        WreckStays(env, next, boots[1..], s);
      } else {
        if Visits(b, s) {
          FileKeepsValue(env, b.disk(s), b.bundles[s], dir[s], p, v);
        }
        RunKeepsValues(env, next, boots[1..], s, p, v);
      }
    }
  }

  lemma KeptTransitive(u: Json, v: Json, w: Json)
    requires Kept(u, v) && Kept(v, w)
    ensures Kept(u, w)
  {
  }

  /** Over any run that spares the file its version rises by one on exactly the boots that
      had something to add and got it into the file. */
  lemma {:induction false} VersionCountsAdditions(env: Env, dir: Dir, boots: seq<Boot>, s: string, n: int)
    requires Sane(env) && s in dir && HoldsVersion(dir[s], n) && Spared(env, dir, boots, s)
    ensures s in Run(env, dir, boots)
    ensures HoldsVersion(Run(env, dir, boots)[s], n + Additions(env, dir, boots, s))
    decreases |boots|
  {
    if boots != [] {
      var b := boots[0];
      var next := Booted(env, b, dir);
      if Visits(b, s) {
        VersionRisesByOne(env, b.disk(s), b.bundles[s], dir[s], n);
      }
      var lands := Visits(b, s) && Lands(env, b.disk(s), b.bundles[s], dir[s]);
      VersionCountsAdditions(env, next, boots[1..], s, if lands then n + 1 else n);
    }
  }

  /** The boot gets to every bundled file, and the disk does nothing to it. */
  ghost predicate Undisturbed(b: Boot) {
    && b.bundles.Keys <= b.seeded && b.bundles.Keys <= b.reached
    && forall s :: s in b.bundles ==> b.disk(s) == Good
  }

  lemma UndisturbedBoot(env: Env, b: Boot, dir: Dir, s: string)
    requires Undisturbed(b) && s in b.bundles
    ensures s in Booted(env, b, dir)
    ensures Booted(env, b, dir)[s] == HydrateFile(env, Good, b.bundles[s], (b.bundles + dir)[s]).file
  {
    assert b.disk(s) == Good;
  }

  lemma BootedAt(env: Env, b: Boot, dir: Dir, s: string)
    requires s in dir
    ensures s in Booted(env, b, dir)
    ensures Booted(env, b, dir)[s] ==
            if Visits(b, s) then HydrateFile(env, b.disk(s), b.bundles[s], dir[s]).file else dir[s]
  {
  }

  lemma NothingNew(env: Env, b: Boot, dir: Dir)
    requires b.bundles.Keys <= dir.Keys
    ensures Booted(env, b, dir).Keys == dir.Keys
  {
  }

  /** Two boots in a row with the same bundles, the first one undisturbed: the second writes
      nothing, whatever the disk does to it. */
  lemma SecondBootWritesNothing(env: Env, first: Boot, dir: Dir, second: Boot)
    requires Sane(env) && second.bundles == first.bundles && Undisturbed(first)
    ensures var once := Booted(env, first, dir);
            && Booted(env, second, once) == once
            && forall s :: s in first.bundles ==>
                 s in once && HydrateFile(env, second.disk(s), first.bundles[s], once[s]).verdict != Wrote
  {
    var once := Booted(env, first, dir);
    var twice := Booted(env, second, once);
    forall s | s in first.bundles
      ensures s in once
      ensures var e := HydrateFile(env, second.disk(s), first.bundles[s], once[s]);
              e.file == once[s] && e.verdict != Wrote
    {
      UndisturbedBoot(env, first, dir, s);
      DealtWithIsSettled(env, first.bundles[s], (first.bundles + dir)[s], second.disk(s));
    }
    NothingNew(env, second, once);
    forall s | s in once
      ensures twice[s] == once[s]
    {
      BootedAt(env, second, once, s);
    }
  }

  // --------------------------------------------------------------- the store

  datatype Outcome = Modified(slugs: nat) | Failed(slug: string)

  /** The persistent config directory. */
  class ConfigStore {
    var overlays: Dir

    constructor (overlays: Dir)
      ensures this.overlays == overlays
    {
      this.overlays := overlays;
    }

    /** seed_remote_configs: copy what is missing, touch nothing that exists. The first copy
        that fails raises; the file it names is returned. */
    method Seed(bundles: Dir, disk: string -> Disk) returns (failed: Option<string>, ghost seeded: set<string>)
      modifies this
      ensures overlays == Seeded(bundles, old(overlays), disk, seeded)
      ensures forall s :: s in old(overlays) ==> s in overlays && overlays[s] == old(overlays)[s]
      ensures failed.Some? ==> failed.value in bundles
                               && SeedFails(disk(failed.value), failed.value in old(overlays))
      ensures failed.None? ==> overlays == bundles + old(overlays) && seeded == bundles.Keys
                               && forall s :: s in bundles ==> !SeedFails(disk(s), s in old(overlays))
    {
      var todo := bundles.Keys;
      seeded := {};
      while todo != {}
        invariant todo <= bundles.Keys && seeded == bundles.Keys - todo
        invariant overlays == Seeded(bundles, old(overlays), disk, seeded)
        invariant forall s :: s in seeded ==> !SeedFails(disk(s), s in old(overlays))
        decreases todo
      {
        var s :| s in todo;
        todo, seeded := todo - {s}, seeded + {s};
        var present := s in overlays;
        if !present && !disk(s).NoSeed? && !disk(s).NoCopy? {
          overlays := overlays[s := if disk(s).CutCopy? then disk(s).partial else bundles[s]];
        }
        assert overlays == Seeded(bundles, old(overlays), disk, seeded);
        if disk(s).NoSeed? || (!present && (disk(s).NoCopy? || disk(s).CutCopy?)) {
          return Some(s), seeded;
        }
      }
      return None, seeded;
    }

    /** hydrate_overlay_additions. The loop visits the files in any order; a file whose overlay
        is missing is passed over, one that raises ends the loop. */
    method HydrateAll(env: Env, bundles: Dir, disk: string -> Disk) returns (r: Outcome, ghost reached: set<string>)
      requires Sane(env)
      modifies this
      ensures overlays == Hydrated(env, bundles, old(overlays), disk, reached) && reached <= bundles.Keys
      ensures r.Failed? ==> r.slug in reached && Poisons(env, bundles, old(overlays), disk, r.slug)
      ensures r.Modified? ==> reached == bundles.Keys
                              && r.slugs == |Counted(env, bundles, old(overlays), disk, reached)|
                              && forall s :: s in bundles ==> !Poisons(env, bundles, old(overlays), disk, s)
    {
      var todo, count := bundles.Keys, 0;
      reached := {};
      while todo != {}
        invariant todo <= bundles.Keys && reached == bundles.Keys - todo
        invariant Progress(env, bundles, old(overlays), disk, reached, overlays, count)
        decreases todo
      {
        var s :| s in todo;
        ProgressStep(env, bundles, old(overlays), disk, reached, overlays, count, s);
        todo, reached := todo - {s}, reached + {s};
        if disk(s).NoLook? {
          return Failed(s), reached;
        }
        if s in overlays {
          var e := HydrateFile(env, disk(s), bundles[s], overlays[s]);
          overlays := overlays[s := e.file];
          if e.verdict == Raised {
            return Failed(s), reached;
          }
          if e.verdict == Wrote {
            count := count + 1;
          }
        }
      }
      return Modified(count), reached;
    }

    /** The config part of a start: seed, then hydrate. It is one boot of the run model, and it
        raises exactly if seeding fails at some file or some file is poisoned. */
    method Start(env: Env, bundles: Dir, disk: string -> Disk) returns (r: Outcome, ghost boot: Boot)
      requires Sane(env)
      modifies this
      ensures boot.bundles == bundles && boot.disk == disk && overlays == Booted(env, boot, old(overlays))
      ensures r.Modified? ==> boot.seeded == boot.reached == bundles.Keys
      ensures r.Failed? <==>
              || (exists s :: s in bundles && SeedFails(disk(s), s in old(overlays)))
              || (exists s :: s in bundles && Poisoned(env, disk(s), bundles[s], (bundles + old(overlays))[s]))
    {
      var failed, seeded := Seed(bundles, disk);
      if failed.Some? {
        boot := Boot(bundles, seeded, {}, disk);
        return Failed(failed.value), boot;
      }
      ghost var reached: set<string>;
      r, reached := HydrateAll(env, bundles, disk);
      boot := Boot(bundles, seeded, reached, disk);
    }
  }

  ghost predicate Poisons(env: Env, bundles: Dir, dir: Dir, disk: string -> Disk, s: string) {
    s in bundles && (disk(s).NoLook? || (s in dir && Poisoned(env, disk(s), bundles[s], dir[s])))
  }

  /** The files that were written and are counted. */
  ghost function Counted(env: Env, bundles: Dir, dir: Dir, disk: string -> Disk, reached: set<string>): set<string> {
    set s | s in reached && s in bundles && s in dir && Lands(env, disk(s), bundles[s], dir[s]) && !disk(s).LateFail?
  }

  lemma OneMoreFile(env: Env, bundles: Dir, dir: Dir, disk: string -> Disk, reached: set<string>, s: string)
    requires s in bundles && s !in reached
    ensures var now := Hydrated(env, bundles, dir, disk, reached);
            && (s in now <==> s in dir) && (s in now ==> now[s] == dir[s])
            && Hydrated(env, bundles, dir, disk, reached + {s}) ==
               if s in dir then now[s := HydrateFile(env, disk(s), bundles[s], dir[s]).file] else now
  {
  }

  /** The hydration loop after the files of `reached`. */
  ghost predicate Progress(env: Env, bundles: Dir, dir: Dir, disk: string -> Disk, reached: set<string>,
                           now: Dir, count: nat) {
    && now == Hydrated(env, bundles, dir, disk, reached)
    && count == |Counted(env, bundles, dir, disk, reached)|
    && forall s :: s in reached ==> !Poisons(env, bundles, dir, disk, s)
  }

  lemma ProgressStep(env: Env, bundles: Dir, dir: Dir, disk: string -> Disk, reached: set<string>,
                     now: Dir, count: nat, s: string)
    requires Sane(env) && s in bundles && s !in reached && Progress(env, bundles, dir, disk, reached, now, count)
    ensures (s in now <==> s in dir) && (s in now ==> now[s] == dir[s])
    ensures disk(s).NoLook? ==> now == Hydrated(env, bundles, dir, disk, reached + {s})
    ensures disk(s).NoLook? ==> Poisons(env, bundles, dir, disk, s)
    ensures s !in now && !disk(s).NoLook? ==> Progress(env, bundles, dir, disk, reached + {s}, now, count)
    ensures s in now && !disk(s).NoLook? ==>
              var e := HydrateFile(env, disk(s), bundles[s], now[s]);
              var next := now[s := e.file];
              && next == Hydrated(env, bundles, dir, disk, reached + {s})
              && (e.verdict == Raised <==> Poisons(env, bundles, dir, disk, s))
              && (e.verdict != Raised ==>
                    Progress(env, bundles, dir, disk, reached + {s}, next, count + if e.verdict == Wrote then 1 else 0))
  {
    OneMoreFile(env, bundles, dir, disk, reached, s);
    OneMoreCounted(env, bundles, dir, disk, reached, s);
    PoisonsIffRaised(env, bundles, dir, disk, s);
    assert s in now && disk(s).NoLook? ==> now[s := now[s]] == now;
  }

  lemma PoisonsIffRaised(env: Env, bundles: Dir, dir: Dir, disk: string -> Disk, s: string)
    requires Sane(env) && s in bundles
    ensures Poisons(env, bundles, dir, disk, s) <==>
            disk(s).NoLook? || (s in dir && HydrateFile(env, disk(s), bundles[s], dir[s]).verdict == Raised)
  {
    if s in dir {
      RaisesIffPoisoned(env, disk(s), bundles[s], dir[s]);
    }
  }

  lemma OneMoreCounted(env: Env, bundles: Dir, dir: Dir, disk: string -> Disk, reached: set<string>, s: string)
    requires Sane(env) && s in bundles && s !in reached
    ensures |Counted(env, bundles, dir, disk, reached + {s})| ==
            |Counted(env, bundles, dir, disk, reached)|
            + if s in dir && HydrateFile(env, disk(s), bundles[s], dir[s]).verdict == Wrote then 1 else 0
  {
    if s in dir {
      WrittenTornOrLeft(env, disk(s), bundles[s], dir[s]);
    }
    CountedStep(env, bundles, dir, disk, reached, s);
  }

  lemma CountedStep(env: Env, bundles: Dir, dir: Dir, disk: string -> Disk, reached: set<string>, s: string)
    requires s in bundles && s !in reached
    ensures |Counted(env, bundles, dir, disk, reached + {s})| ==
            |Counted(env, bundles, dir, disk, reached)|
            + if s in dir && Lands(env, disk(s), bundles[s], dir[s]) && !disk(s).LateFail? then 1 else 0
  {
    var counts := s in dir && Lands(env, disk(s), bundles[s], dir[s]) && !disk(s).LateFail?;
    assert Counted(env, bundles, dir, disk, reached + {s}) ==
           Counted(env, bundles, dir, disk, reached) + if counts then {s} else {};
  }
}
