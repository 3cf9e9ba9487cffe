/** The one-off migration of exercise images to S3: every exercise whose image
    is still hosted on Vercel gets a new object key built from its name and the
    current time, and its `image_url` is rewritten to the object's public URL. */
module ImageMigration {
  import opened Wrappers
  import opened Entities
  import opened Text

  // ---------------------------------------------------------------------------
  // Names, keys and URLs.

  predicate Replaced(c: char) { c == ' ' || c == '/' }

  /** `name.replace(/[ /]/g, "-")`. */
  function Sanitize(name: string): (s: string)
    ensures |s| == |name|
    ensures forall i :: 0 <= i < |s| ==> s[i] == (if Replaced(name[i]) then '-' else name[i])
    decreases |name|
  {
    if name == [] then []
    else Sanitize(name[..|name| - 1]) + [if Replaced(name[|name| - 1]) then '-' else name[|name| - 1]]
  }

  /** No space and no slash survives. */
  lemma SanitizeRemoves(name: string)
    ensures forall i :: 0 <= i < |Sanitize(name)| ==> !Replaced(Sanitize(name)[i])
  {
  }

  /** Sanitising twice is sanitising once. */
  lemma SanitizeIdempotent(name: string)
    ensures Sanitize(Sanitize(name)) == Sanitize(name)
  {
    var s := Sanitize(name);
    assert forall i :: 0 <= i < |s| ==> Sanitize(s)[i] == s[i];
  }

  const Directory: string := "exercise_images"
  const BucketUrl: string := "https://hplan.s3.us-east-1.amazonaws.com/"

  /** The object key: the directory, the sanitised name, then the time stamp in decimal. */
  function Key(name: string, stamp: nat): string {
    Directory + "/" + Sanitize(name) + NatToString(stamp)
  }

  function NewUrl(name: string, stamp: nat): string {
    BucketUrl + Key(name, stamp)
  }

  /** The key's only slash is the one after the directory, so every object
      lands directly under it; the name and the stamp follow it in order. */
  lemma KeyShape(name: string, stamp: nat)
    ensures StartsWith(Key(name, stamp), Directory + "/")
    ensures forall i :: 0 <= i < |Key(name, stamp)| && Key(name, stamp)[i] == '/' ==> i == |Directory|
    ensures Key(name, stamp)[|Directory| + 1..|Directory| + 1 + |name|] == Sanitize(name)
    ensures NumberOf(Key(name, stamp)[|Directory| + 1 + |name|..]) == Some(stamp)
  {
    var k, d, s, t := Key(name, stamp), Directory + "/", Sanitize(name), NatToString(stamp);
    assert k == d + s + t;
    assert k[..|d|] == d;
    assert k[|d|..|d| + |s|] == s;
    assert k[|d| + |s|..] == t;
    NumberOfNatToString(stamp);
  }

  /** The new URL is the bucket's address followed by the key. */
  lemma NewUrlShape(name: string, stamp: nat)
    ensures StartsWith(NewUrl(name, stamp), BucketUrl)
    ensures NewUrl(name, stamp)[|BucketUrl|..] == Key(name, stamp)
  {
    var u := NewUrl(name, stamp);
    assert u[..|BucketUrl|] == BucketUrl;
  }

  // ---------------------------------------------------------------------------
  // The migration loop.

  /** A row of the exercise query (its `image_url` is not null). */
  datatype ImageRow = ImageRow(id: Id, name: string, imageUrl: string)

  /** One `UPDATE exercises SET image_url = url WHERE id = id` that took effect. */
  datatype ImageUpdate = ImageUpdate(id: Id, url: string)

  /** The updates made, and whether a failure ended the loop with an error. */
  datatype Outcome = Outcome(updates: seq<ImageUpdate>, failed: bool)

  predicate OnVercel(r: ImageRow) { Contains(r.imageUrl, "vercel") }

  /** The migration of `rows` from the front. For row i, `stamps[i]` is the time
      read for its key, `transferOk[i]` says whether download, optimisation and
      upload all succeeded (a failure there ends the whole run), and
      `updateOk[i]` whether the database update succeeded (a failure there is
      only logged). */
  function Migration(rows: seq<ImageRow>, stamps: seq<nat>, transferOk: seq<bool>, updateOk: seq<bool>): Outcome
    requires |stamps| == |rows| && |transferOk| == |rows| && |updateOk| == |rows|
    decreases |rows|
  {
    if rows == [] then Outcome([], false)
    else if !OnVercel(rows[0]) then Migration(rows[1..], stamps[1..], transferOk[1..], updateOk[1..])
    else if !transferOk[0] then Outcome([], true)
    else
      var rest := Migration(rows[1..], stamps[1..], transferOk[1..], updateOk[1..]);
      var here := if updateOk[0] then [ImageUpdate(rows[0].id, NewUrl(rows[0].name, stamps[0]))] else [];
      Outcome(here + rest.updates, rest.failed)
  }

  /** `migrateImages`. */
  method MigrateImages(rows: seq<ImageRow>, stamps: seq<nat>, transferOk: seq<bool>, updateOk: seq<bool>)
    returns (updates: seq<ImageUpdate>, failed: bool)
    requires |stamps| == |rows| && |transferOk| == |rows| && |updateOk| == |rows|
    ensures Outcome(updates, failed) == Migration(rows, stamps, transferOk, updateOk)
  {
    updates, failed := [], false;
    var i := 0;
    while i < |rows|
      invariant 0 <= i <= |rows|
      invariant Migration(rows, stamps, transferOk, updateOk) ==
        var rest := Migration(rows[i..], stamps[i..], transferOk[i..], updateOk[i..]);
        Outcome(updates + rest.updates, rest.failed)
    {
      MigrationAt(rows, stamps, transferOk, updateOk, i);
      ghost var rest := Migration(rows[i + 1..], stamps[i + 1..], transferOk[i + 1..], updateOk[i + 1..]);
      var row := rows[i];
      if Contains(row.imageUrl, "vercel") {
        if !transferOk[i] {
          failed := true;
          break;
        }
        var newUrl := BucketUrl + Key(row.name, stamps[i]);
        if updateOk[i] {
          assert (updates + [ImageUpdate(row.id, newUrl)]) + rest.updates == updates + ([ImageUpdate(row.id, newUrl)] + rest.updates);
          updates := updates + [ImageUpdate(row.id, newUrl)];
        }
      }
      i := i + 1;
    }
    if !failed {
      assert rows[i..] == [];
    }
  }

  /** Migration of the rows from i on, unfolded once. */
  lemma MigrationAt(rows: seq<ImageRow>, stamps: seq<nat>, transferOk: seq<bool>, updateOk: seq<bool>, i: nat)
    requires |stamps| == |rows| && |transferOk| == |rows| && |updateOk| == |rows|
    requires i < |rows|
    ensures Migration(rows[i..], stamps[i..], transferOk[i..], updateOk[i..]) ==
      var rest := Migration(rows[i + 1..], stamps[i + 1..], transferOk[i + 1..], updateOk[i + 1..]);
      if !OnVercel(rows[i]) then rest
      else if !transferOk[i] then Outcome([], true)
      else
        var here := if updateOk[i] then [ImageUpdate(rows[i].id, NewUrl(rows[i].name, stamps[i]))] else [];
        Outcome(here + rest.updates, rest.failed)
  {
    assert rows[i..][1..] == rows[i + 1..] && stamps[i..][1..] == stamps[i + 1..];
    assert transferOk[i..][1..] == transferOk[i + 1..] && updateOk[i..][1..] == updateOk[i + 1..];
  }

  /** Every update rewrites a Vercel-hosted exercise to the URL built from its
      own name and stamp. */
  lemma {:induction false} MigrationUpdates(rows: seq<ImageRow>, stamps: seq<nat>, transferOk: seq<bool>,
                                            updateOk: seq<bool>, u: ImageUpdate)
    requires |stamps| == |rows| && |transferOk| == |rows| && |updateOk| == |rows|
    requires u in Migration(rows, stamps, transferOk, updateOk).updates
    ensures exists k :: 0 <= k < |rows| && OnVercel(rows[k]) && transferOk[k] && updateOk[k]
                        && u == ImageUpdate(rows[k].id, NewUrl(rows[k].name, stamps[k]))
    decreases |rows|
  {
    var here := if updateOk[0] then [ImageUpdate(rows[0].id, NewUrl(rows[0].name, stamps[0]))] else [];
    if OnVercel(rows[0]) && transferOk[0] && u in here {
      assert 0 < |rows|;
    } else {
      MigrationUpdates(rows[1..], stamps[1..], transferOk[1..], updateOk[1..], u);
      var k :| 0 <= k < |rows| - 1 && OnVercel(rows[1..][k]) && transferOk[1..][k] && updateOk[1..][k]
               && u == ImageUpdate(rows[1..][k].id, NewUrl(rows[1..][k].name, stamps[1..][k]));
      assert rows[k + 1] == rows[1..][k];
    }
  }

  /** The rows the migration touches when nothing fails: the Vercel-hosted ones, in order. */
  function VercelUpdates(rows: seq<ImageRow>, stamps: seq<nat>): (us: seq<ImageUpdate>)
    requires |stamps| == |rows|
    ensures |us| <= |rows|
    decreases |rows|
  {
    if rows == [] then []
    else
      (if OnVercel(rows[0]) then [ImageUpdate(rows[0].id, NewUrl(rows[0].name, stamps[0]))] else [])
      + VercelUpdates(rows[1..], stamps[1..])
  }

  /** When every transfer and every update succeeds, each Vercel-hosted
      exercise is updated once, in row order, and the run ends without error. */
  lemma {:induction false} MigrationAllOk(rows: seq<ImageRow>, stamps: seq<nat>, transferOk: seq<bool>,
                                          updateOk: seq<bool>)
    requires |stamps| == |rows| && |transferOk| == |rows| && |updateOk| == |rows|
    requires forall k :: 0 <= k < |rows| ==> transferOk[k] && updateOk[k]
    ensures Migration(rows, stamps, transferOk, updateOk) == Outcome(VercelUpdates(rows, stamps), false)
    decreases |rows|
  {
    if rows != [] {
      assert forall k :: 0 <= k < |rows| - 1 ==> transferOk[1..][k] == transferOk[k + 1];
      assert forall k :: 0 <= k < |rows| - 1 ==> updateOk[1..][k] == updateOk[k + 1];
      MigrationAllOk(rows[1..], stamps[1..], transferOk[1..], updateOk[1..]);
    }
  }

  /** An exercise not hosted on Vercel is never updated. */
  lemma {:induction false} VercelOnly(rows: seq<ImageRow>, stamps: seq<nat>, transferOk: seq<bool>,
                                      updateOk: seq<bool>, k: nat)
    requires |stamps| == |rows| && |transferOk| == |rows| && |updateOk| == |rows|
    requires k < |rows| && !OnVercel(rows[k])
    requires forall j :: 0 <= j < |rows| && j != k ==> rows[j].id != rows[k].id
    ensures forall u :: u in Migration(rows, stamps, transferOk, updateOk).updates ==> u.id != rows[k].id
  {
    forall u | u in Migration(rows, stamps, transferOk, updateOk).updates
      ensures u.id != rows[k].id
    {
      MigrationUpdates(rows, stamps, transferOk, updateOk, u);
    }
  }
}
