/**
 * A user's photo collection as plain values: the photo entity, the guard
 * expressions the controller evaluates over the collection, the new
 * collection each successful transition produces, and the "exactly one main
 * photo" invariant with the lemmas showing that every transition keeps it.
 */
module Photos {
  import opened Wrappers

  /** A stored photo. `publicId` is None when the image was never uploaded
      to the remote image host (a seeded placeholder, say). */
  datatype Photo = Photo(id: int, url: string, publicId: Option<string>, isMain: bool)

  /** The reference the remote image host answers for one uploaded image. */
  datatype UploadResult = UploadResult(url: string, publicId: string)

  /** Some photo of the collection is flagged main. */
  predicate AnyMain(s: seq<Photo>)
  {
    exists i :: 0 <= i < |s| && s[i].isMain
  }

  /** Some photo of the collection has the given id. */
  predicate ContainsId(s: seq<Photo>, id: int)
  {
    exists i :: 0 <= i < |s| && s[i].id == id
  }

  /** The repository gives every photo its own id. */
  predicate UniqueIds(s: seq<Photo>)
  {
    forall i, j :: 0 <= i < j < |s| ==> s[i].id != s[j].id
  }

  /** The number of photos flagged main. */
  function MainCount(s: seq<Photo>): (n: nat)
    ensures n <= |s|
    ensures n > 0 <==> AnyMain(s)
  {
    if s == [] then 0
    else
      assert forall i :: 1 <= i < |s| ==> s[i] == s[1..][i - 1];
      (if s[0].isMain then 1 else 0) + MainCount(s[1..])
  }

  /** A user with photos has exactly one main photo; a user without has none. */
  ghost predicate MainInvariant(s: seq<Photo>)
  {
    MainCount(s) == if s == [] then 0 else 1
  }

  /** The position of the photo with the given id: the photo the repository
      loads by that id. */
  function IndexOf(s: seq<Photo>, id: int): (k: nat)
    requires ContainsId(s, id)
    ensures k < |s| && s[k].id == id
    ensures forall j :: 0 <= j < k ==> s[j].id != id
  {
    if s[0].id == id then 0
    else
      assert exists i :: 0 <= i < |s[1..]| && s[1..][i].id == id by {
        var i :| 0 <= i < |s| && s[i].id == id;
        assert s[1..][i - 1].id == id;
      }
      1 + IndexOf(s[1..], id)
  }

  /** The photo with the given id; with unique ids it is the only one. */
  function PhotoWithId(s: seq<Photo>, id: int): (p: Photo)
    requires ContainsId(s, id)
    ensures p in s && p.id == id
    ensures UniqueIds(s) ==> forall i :: 0 <= i < |s| && s[i].id == id ==> s[i] == p
  {
    s[IndexOf(s, id)]
  }

  /** The position of the user's current main photo. */
  function MainIndex(s: seq<Photo>): (k: nat)
    requires AnyMain(s)
    ensures k < |s| && s[k].isMain
    ensures forall j :: 0 <= j < k ==> !s[j].isMain
  {
    if s[0].isMain then 0
    else
      assert exists i :: 0 <= i < |s[1..]| && s[1..][i].isMain by {
        var i :| 0 <= i < |s| && s[i].isMain;
        assert s[1..][i - 1].isMain;
      }
      1 + MainIndex(s[1..])
  }

  /** The photo built from an upload: it is main exactly when the user has
      no main photo yet. */
  function NewPhoto(s: seq<Photo>, id: int, upload: UploadResult): Photo
  {
    Photo(id, upload.url, Some(upload.publicId), !AnyMain(s))
  }

  /** The collection after the current main photo is cleared and the photo
      with the given id is flagged main. */
  function Promoted(s: seq<Photo>, id: int): seq<Photo>
    requires ContainsId(s, id) && AnyMain(s)
  {
    var m := MainIndex(s);
    var cleared := s[m := s[m].(isMain := false)];
    var t := IndexOf(s, id);
    cleared[t := cleared[t].(isMain := true)]
  }

  /** The collection without the photo with the given id. */
  function Removed(s: seq<Photo>, id: int): seq<Photo>
    requires ContainsId(s, id)
  {
    var k := IndexOf(s, id);
    s[..k] + s[k + 1..]
  }

  // ---------------------------------------------------------------------
  // Counting main photos

  lemma {:induction false} MainCountConcat(a: seq<Photo>, b: seq<Photo>)
    ensures MainCount(a + b) == MainCount(a) + MainCount(b)
  {
    if a == [] {
      assert a + b == b;
    } else {
      assert (a + b)[1..] == a[1..] + b;
      MainCountConcat(a[1..], b);
    }
  }

  /** Two distinct main photos make the count at least two. */
  lemma {:induction false} TwoMainsCountTwo(s: seq<Photo>, i: nat, j: nat)
    requires i < j < |s| && s[i].isMain && s[j].isMain
    ensures MainCount(s) >= 2
  {
    if i == 0 {
      assert s[1..][j - 1].isMain;
    } else {
      assert s[1..][i - 1].isMain && s[1..][j - 1].isMain;
      TwoMainsCountTwo(s[1..], i - 1, j - 1);
    }
  }

  /** Under the invariant the main photo is unique. */
  lemma {:induction false} MainIsUnique(s: seq<Photo>, i: nat, j: nat)
    requires MainInvariant(s)
    requires i < |s| && j < |s| && s[i].isMain && s[j].isMain
    ensures i == j
  {
    if i < j {
      TwoMainsCountTwo(s, i, j);
    } else if j < i {
      TwoMainsCountTwo(s, j, i);
    }
  }

  /** Replacing one photo changes the count by the difference of the two flags. */
  lemma {:induction false} MainCountUpdate(s: seq<Photo>, k: nat, p: Photo)
    requires k < |s|
    ensures MainCount(s[k := p]) + (if s[k].isMain then 1 else 0)
         == MainCount(s) + (if p.isMain then 1 else 0)
  {
    assert s == s[..k] + [s[k]] + s[k + 1..];
    assert s[k := p] == s[..k] + [p] + s[k + 1..];
    MainCountConcat(s[..k] + [s[k]], s[k + 1..]);
    MainCountConcat(s[..k], [s[k]]);
    MainCountConcat(s[..k] + [p], s[k + 1..]);
    MainCountConcat(s[..k], [p]);
  }

  // ---------------------------------------------------------------------
  // Adding a photo

  /** Adding a built photo sets the count to one when it was zero and
      leaves it unchanged otherwise, whatever the collection held before. */
  lemma {:induction false} AddCount(s: seq<Photo>, id: int, upload: UploadResult)
    ensures MainCount(s + [NewPhoto(s, id, upload)]) == if MainCount(s) == 0 then 1 else MainCount(s)
  {
    MainCountConcat(s, [NewPhoto(s, id, upload)]);
  }

  /** The first photo a user gets is main; a later one is not. */
  lemma {:induction false} NewPhotoMain(s: seq<Photo>, id: int, upload: UploadResult)
    requires MainInvariant(s)
    ensures NewPhoto(s, id, upload).isMain <==> s == []
  {
  }

  /** Adding to a collection that keeps the invariant, under a fresh id,
      keeps the invariant and the uniqueness of ids. */
  lemma {:induction false} AddKeepsInvariant(s: seq<Photo>, id: int, upload: UploadResult)
    requires MainInvariant(s) && UniqueIds(s) && !ContainsId(s, id)
    ensures MainInvariant(s + [NewPhoto(s, id, upload)])
    ensures UniqueIds(s + [NewPhoto(s, id, upload)])
  {
    AddCount(s, id, upload);
    var r := s + [NewPhoto(s, id, upload)];
    forall i, j | 0 <= i < j < |r| ensures r[i].id != r[j].id {
      if j == |s| {
        assert r[i] == s[i];
      } else {
        assert r[i] == s[i] && r[j] == s[j];
      }
    }
  }

  // ---------------------------------------------------------------------
  // Promoting a photo to main

  /** Promoting a photo that is not main flips exactly two flags: the old
      main photo loses it and the target gains it; every other photo, every
      id, url and public id stays as it was, and the invariant holds after. */
  lemma {:induction false} PromotedSpec(s: seq<Photo>, id: int)
    requires MainInvariant(s) && UniqueIds(s) && ContainsId(s, id)
    requires !PhotoWithId(s, id).isMain
    ensures AnyMain(s)
    ensures var r := Promoted(s, id);
      && |r| == |s|
      && (forall i :: 0 <= i < |s| ==>
            r[i].id == s[i].id && r[i].url == s[i].url && r[i].publicId == s[i].publicId)
      && (forall i :: 0 <= i < |s| ==> (r[i].isMain <==> s[i].id == id))
      && (forall i :: 0 <= i < |s| && s[i].isMain ==> r[i] == s[i].(isMain := false))
      && (forall i :: 0 <= i < |s| && s[i].id == id ==> r[i] == s[i].(isMain := true))
      && (forall i :: 0 <= i < |s| && s[i].id != id && !s[i].isMain ==> r[i] == s[i])
      && MainInvariant(r) && UniqueIds(r)
  {
    var m := MainIndex(s);
    var t := IndexOf(s, id);
    assert m != t;
    var cleared := s[m := s[m].(isMain := false)];
    var r := cleared[t := cleared[t].(isMain := true)];
    assert r == Promoted(s, id);
    forall i | 0 <= i < |s| && s[i].isMain ensures i == m {
      MainIsUnique(s, i, m);
    }
    assert forall i :: 0 <= i < |s| && s[i].id == id ==> i == t;
    MainCountUpdate(s, m, s[m].(isMain := false));
    MainCountUpdate(cleared, t, cleared[t].(isMain := true));
  }

  // ---------------------------------------------------------------------
  // Removing a photo

  /** Positions in a collection with one element taken out. */
  lemma {:induction false} RemoveAtIndex(s: seq<Photo>, k: nat)
    requires k < |s|
    ensures var r := s[..k] + s[k + 1..];
      && |r| == |s| - 1
      && (forall i :: 0 <= i < |r| ==> r[i] == s[if i < k then i else i + 1])
      && multiset(r) + multiset{s[k]} == multiset(s)
  {
    assert s == s[..k] + [s[k]] + s[k + 1..];
  }

  /** Taking one element out lowers the count by that element's flag. */
  lemma {:induction false} RemoveAtCount(s: seq<Photo>, k: nat)
    requires k < |s|
    ensures MainCount(s[..k] + s[k + 1..]) + (if s[k].isMain then 1 else 0) == MainCount(s)
  {
    var a, b := s[..k], s[k + 1..];
    assert s == (a + [s[k]]) + b;
    MainCountConcat(a + [s[k]], b);
    MainCountConcat(a, [s[k]]);
    MainCountConcat(a, b);
    assert MainCount([s[k]]) == if s[k].isMain then 1 else 0 by {
      assert [s[k]][1..] == [];
    }
  }

  /** With unique ids, taking out the photo at one position leaves exactly
      the photos with other ids, still with unique ids. */
  lemma {:induction false} RemoveAtMembers(s: seq<Photo>, k: nat)
    requires k < |s| && UniqueIds(s)
    ensures var r := s[..k] + s[k + 1..];
      && UniqueIds(r)
      && !ContainsId(r, s[k].id)
      && (forall p :: p in r <==> p in s && p.id != s[k].id)
  {
    var r := s[..k] + s[k + 1..];
    RemoveAtIndex(s, k);
    forall i, j | 0 <= i < j < |r| ensures r[i].id != r[j].id {
      assert r[i] == s[if i < k then i else i + 1];
      assert r[j] == s[if j < k then j else j + 1];
    }
    forall i | 0 <= i < |r| ensures r[i].id != s[k].id {
      assert r[i] == s[if i < k then i else i + 1];
    }
    forall p | p in s && p.id != s[k].id ensures p in r {
      var i :| 0 <= i < |s| && s[i] == p;
      assert r[if i < k then i else i - 1] == p;
    }
  }

  /** Removing a photo that is not main removes exactly that photo and
      keeps the invariant. */
  lemma {:induction false} RemovedSpec(s: seq<Photo>, id: int)
    requires MainInvariant(s) && UniqueIds(s) && ContainsId(s, id)
    requires !PhotoWithId(s, id).isMain
    ensures var r := Removed(s, id);
      && |r| == |s| - 1
      && multiset(r) + multiset{PhotoWithId(s, id)} == multiset(s)
      && (forall p :: p in r <==> p in s && p.id != id)
      && !ContainsId(r, id)
      && MainInvariant(r) && UniqueIds(r)
  {
    var k := IndexOf(s, id);
    RemoveAtIndex(s, k);
    RemoveAtCount(s, k);
    RemoveAtMembers(s, k);
    // The main photo survives, so the collection is not empty.
    var m := MainIndex(s);
    assert s[m] in Removed(s, id);
  }
}
