/**
 * The three photo actions of the controller, as methods on the user whose
 * photos they change. `photos` is the committed collection: every change is
 * staged first and becomes the user's state only when the repository's
 * commit succeeds. The outside world enters as parameters: the caller's id
 * from the authentication claims, the id the repository gives a new photo,
 * the answer of the remote upload and destroy calls, and the outcome of the
 * commit.
 */
module PhotoController {
  import opened Wrappers
  import opened Photos

  /** Why an action was refused. */
  datatype Reason = NoUploadedImage | CouldNotAdd | AlreadyMain | CouldNotSetMain | CannotDeleteMain | CouldNotDelete

  /** What an action answers. */
  datatype Response = Created(photo: Photo) | NoContent | Ok | Unauthorized | BadRequest(reason: Reason)

  /** The text of each refusal. */
  function Message(r: Reason): string
  {
    match r
    case NoUploadedImage => "No image was uploaded"
    case CouldNotAdd => "Could not add photo"
    case AlreadyMain => "This is already a main photo"
    case CouldNotSetMain => "Could not set photo to main"
    case CannotDeleteMain => "You can not delete your main photo"
    case CouldNotDelete => "Failed to delete the photo"
  }

  /** Each refusal has a text of its own. */
  lemma MessagesDistinct(a: Reason, b: Reason)
    ensures Message(a) == Message(b) ==> a == b
  {
  }

  class User {
    const userId: int
    var photos: seq<Photo>

    ghost predicate Valid()
      reads this
    {
      MainInvariant(photos) && UniqueIds(photos)
    }

    constructor (userId: int, photos: seq<Photo>)
      requires MainInvariant(photos) && UniqueIds(photos)
      ensures Valid() && this.userId == userId && this.photos == photos
    {
      this.userId := userId;
      this.photos := photos;
    }

    /** Uploads a photo for this user. The image is sent to the remote host
        only when the file is not empty (`fileLength > 0`); `upload` is the
        host's answer to that call, None when it gave no image back.
        `uploadRequested` says whether the call was made. */
    method AddPhotoForUser(callerId: int, fileLength: nat, upload: Option<UploadResult>, freshId: int, commitOk: bool)
      returns (r: Response, uploadRequested: bool)
      requires Valid() && !ContainsId(photos, freshId)
      modifies this
      ensures Valid()
      ensures callerId != userId ==> r == Unauthorized && !uploadRequested && photos == old(photos)
      ensures callerId == userId ==> uploadRequested == (fileLength > 0)
      ensures callerId == userId && (fileLength == 0 || upload.None?) ==>
        r == BadRequest(NoUploadedImage) && photos == old(photos)
      ensures callerId == userId && fileLength > 0 && upload.Some? && !commitOk ==>
        r == BadRequest(CouldNotAdd) && photos == old(photos)
      ensures callerId == userId && fileLength > 0 && upload.Some? && commitOk ==>
        r == Created(NewPhoto(old(photos), freshId, upload.value)) && photos == old(photos) + [r.photo]
    {
      if callerId != userId {
        return Unauthorized, false;
      }
      var uploadResult: Option<UploadResult> := None;
      uploadRequested := false;
      if fileLength > 0 {
        uploadRequested := true;
        uploadResult := upload;
      }
      if uploadResult.None? {
        return BadRequest(NoUploadedImage), uploadRequested;
      }
      var photo := Photo(freshId, uploadResult.value.url, Some(uploadResult.value.publicId), false);
      if !AnyMain(photos) {
        photo := photo.(isMain := true);
      }
      var staged := photos + [photo];
      if commitOk {
        AddKeepsInvariant(photos, freshId, uploadResult.value);
        photos := staged;
        r := Created(photo);
      } else {
        r := BadRequest(CouldNotAdd);
      }
    }

    /** Makes the photo with id `photoId` this user's main photo. */
    method SetMainPhoto(callerId: int, photoId: int, commitOk: bool) returns (r: Response)
      requires Valid()
      modifies this
      ensures Valid()
      ensures callerId != userId ==> r == Unauthorized && photos == old(photos)
      ensures callerId == userId && !ContainsId(old(photos), photoId) ==>
        r == Unauthorized && photos == old(photos)
      ensures callerId == userId && ContainsId(old(photos), photoId) && PhotoWithId(old(photos), photoId).isMain ==>
        r == BadRequest(AlreadyMain) && photos == old(photos)
      ensures callerId == userId && ContainsId(old(photos), photoId) && !PhotoWithId(old(photos), photoId).isMain ==>
        AnyMain(old(photos)) &&
        if commitOk then r == NoContent && photos == Promoted(old(photos), photoId)
        else r == BadRequest(CouldNotSetMain) && photos == old(photos)
    {
      if callerId != userId {
        return Unauthorized;
      }
      if !ContainsId(photos, photoId) {
        return Unauthorized;
      }
      var t := IndexOf(photos, photoId);
      if photos[t].isMain {
        return BadRequest(AlreadyMain);
      }
      PromotedSpec(photos, photoId);
      var m := MainIndex(photos);
      var staged := photos[m := photos[m].(isMain := false)];
      staged := staged[t := staged[t].(isMain := true)];
      if commitOk {
        photos := staged;
        r := NoContent;
      } else {
        r := BadRequest(CouldNotSetMain);
      }
    }

    /** Deletes the photo with id `photoId`. `destroyResult` is the remote
        host's answer to the destroy call; `destroyed` is the public id that
        call was made with, None when no remote call was made. */
    method DeletePhoto(callerId: int, photoId: int, destroyResult: string, commitOk: bool)
      returns (r: Response, destroyed: Option<string>)
      requires Valid()
      modifies this
      ensures Valid()
      ensures callerId != userId ==> r == Unauthorized && photos == old(photos) && destroyed == None
      ensures callerId == userId && !ContainsId(old(photos), photoId) ==>
        r == Unauthorized && photos == old(photos) && destroyed == None
      ensures callerId == userId && ContainsId(old(photos), photoId) && PhotoWithId(old(photos), photoId).isMain ==>
        r == BadRequest(CannotDeleteMain) && photos == old(photos) && destroyed == None
      ensures callerId == userId && ContainsId(old(photos), photoId) && !PhotoWithId(old(photos), photoId).isMain ==>
        var photo := PhotoWithId(old(photos), photoId);
        && destroyed == photo.publicId
        && if !commitOk then r == BadRequest(CouldNotDelete) && photos == old(photos)
           else if photo.publicId.None? || destroyResult == "ok" then r == Ok && photos == Removed(old(photos), photoId)
           else r == Ok && photos == old(photos)
    {
      destroyed := None;
      if callerId != userId {
        return Unauthorized, None;
      }
      if !ContainsId(photos, photoId) {
        return Unauthorized, None;
      }
      var photo := PhotoWithId(photos, photoId);
      if photo.isMain {
        return BadRequest(CannotDeleteMain), None;
      }
      RemovedSpec(photos, photoId);
      var staged := photos;
      if photo.publicId.Some? {
        destroyed := photo.publicId;
        if destroyResult == "ok" {
          staged := Removed(photos, photoId);
        }
      }
      if photo.publicId.None? {
        staged := Removed(photos, photoId);
      }
      if commitOk {
        photos := staged;
        r := Ok;
      } else {
        r := BadRequest(CouldNotDelete);
      }
    }
  }
}
