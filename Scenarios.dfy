/**
 * Concrete scenarios of the three actions, proved from the method
 * contracts alone.
 */
module Scenarios {
  import opened Wrappers
  import opened Photos
  import opened PhotoController

  /** A user with photos A (main) and B promotes B. */
  method PromoteSecondPhoto()
  {
    var a := Photo(1, "a.jpg", Some("pa"), true);
    var b := Photo(2, "b.jpg", Some("pb"), false);
    assert [a, b][1].id == 2 && PhotoWithId([a, b], 2) == b;
    var u := new User(7, [a, b]);
    var r := u.SetMainPhoto(7, 2, true);
    assert r == NoContent;
    PromotedSpec([a, b], 2);
    assert u.photos == [a.(isMain := false), b.(isMain := true)];
  }

  /** A user without photos uploads one: it becomes the main photo. */
  method FirstUploadIsMain()
  {
    var u := new User(7, []);
    var r, requested := u.AddPhotoForUser(7, 500, Some(UploadResult("c.jpg", "pc")), 10, true);
    assert requested && r == Created(Photo(10, "c.jpg", Some("pc"), true));
    assert u.photos == [r.photo];
  }

  /** A user whose only photo is main cannot delete it. */
  method DeleteOnlyPhoto()
  {
    var a := Photo(1, "a.jpg", Some("pa"), true);
    assert [a][0].id == 1 && PhotoWithId([a], 1) == a;
    var u := new User(7, [a]);
    var r, destroyed := u.DeletePhoto(7, 1, "ok", true);
    assert r == BadRequest(CannotDeleteMain) && destroyed == None;
    assert u.photos == [a];
  }

  /** A failed remote destroy leaves the photo in place, though the commit
      succeeds and the answer is Ok. */
  method DestroyFails()
  {
    var a := Photo(1, "a.jpg", None, true);
    var b := Photo(2, "b.jpg", Some("pb"), false);
    assert [a, b][1].id == 2 && PhotoWithId([a, b], 2) == b;
    var u := new User(7, [a, b]);
    var r, destroyed := u.DeletePhoto(7, 2, "not found", true);
    assert destroyed == Some("pb");
    assert r == Ok && u.photos == [a, b];
  }

  /** Another caller is refused by every action, before any remote call. */
  method ForeignCaller()
  {
    var a := Photo(1, "a.jpg", Some("pa"), true);
    var b := Photo(2, "b.jpg", None, false);
    var u := new User(7, [a, b]);
    var r1, requested := u.AddPhotoForUser(8, 500, Some(UploadResult("c.jpg", "pc")), 10, true);
    var r2 := u.SetMainPhoto(8, 2, true);
    var r3, destroyed := u.DeletePhoto(8, 2, "ok", true);
    assert r1 == Unauthorized && r2 == Unauthorized && r3 == Unauthorized;
    assert !requested && destroyed == None && u.photos == [a, b];
  }
}
