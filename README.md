# Photo lifecycle of the DatingApp API

This project models the photo actions of the DatingApp API's photo
controller. A user owns a collection of photos. Exactly one photo is the
main photo whenever the user has any photos. The binary images live on a
remote image host. Each stored photo keeps that host's URL and, when the
image really was uploaded, its public id. There are three actions:

- **AddPhotoForUser** checks the caller. It builds a photo from the upload
  result, makes it main when the user has no main photo yet, appends it and
  commits.
- **SetMainPhoto** checks the caller and that the photo belongs to the user,
  and rejects a photo that is already main. Otherwise it clears the current
  main flag, sets the target's flag and commits.
- **DeletePhoto** checks the caller and the ownership, and refuses to delete
  the main photo. A photo with a public id is removed only when the remote
  destroy answers `"ok"`. A photo without one is removed directly. Then it
  commits.

Layout:

- `Wrappers.dfy`: `Option`, standing in for nullable references.
- `Photos.dfy`: the `Photo` value and the guard expressions over a collection
  (`AnyMain`, `ContainsId`). It holds the repository lookups (`IndexOf` and
  `PhotoWithId` for a photo by id, `MainIndex` for the current main photo)
  and the collection each successful action commits (`NewPhoto`, `Promoted`,
  `Removed`). It also holds the invariant `MainInvariant` (built on
  `MainCount`) and the lemmas showing that each action keeps it.
- `PhotoController.dfy`: class `User` with the user id and the committed
  `photos`, plus one method per action. Each method stages its change in a
  local and assigns it only when the commit succeeds. Each method's
  `ensures` gives the response and the new collection for every branch. The
  response is a tagged `Response`, and `Message` gives the text of each
  refusal.
- `Scenarios.dfy`: concrete scenarios of the actions, proved from the method
  contracts alone.

The outside world enters as parameters:

- `callerId`: the id from the authentication claims.
- `freshId`: the id the repository gives a new photo. It is required not to
  be in the collection yet.
- `fileLength`: the length of the uploaded file. The image is sent to the
  remote host only when it is not zero.
- `upload`: the host's answer to that upload. `None` means no image came
  back, so the source would have no URI to read at line 78.
- `destroyResult`: the remote destroy call's status string.
- `commitOk`: the outcome of the repository's save.

Two outputs record the remote calls. `AddPhotoForUser` returns
`uploadRequested`, which says whether the upload call was made.
`DeletePhoto` returns `destroyed`, the public id the remote destroy call
was made with, or `None` when no remote call was made.

The model keeps three behaviours of the code that have no answer of
their own:

- A missing user or photo is a null dereference in the code.
- A destroy call that does not answer `"ok"` leads to no refusal. The
  code still commits and answers by the commit outcome, so with a
  successful commit the answer is `Ok` and the photo stays.
- `SetMainPhoto` never lacks a current main photo, because of the class
  invariant.

## Model

| member | source | states |
|---|---|---|
| `Photos.MainCount` | DatingApp.Api/Controllers/PhotoController.cs:84 | the count of main photos is positive exactly when the collection has a main photo (the `Any(u => u.IsMain)` guard), and never exceeds the collection size |
| `Photos.IndexOf` | DatingApp.Api/Controllers/PhotoController.cs:106-109 | for an id that is in the collection, gives the position of the first photo with that id; that is the photo loaded by id after the membership check |
| `Photos.MainIndex` | DatingApp.Api/Controllers/PhotoController.cs:114 | when some photo is main, gives the position of the first main photo (the user's current main photo) |
| `Photos.MainIsUnique` | DatingApp.Api/Controllers/PhotoController.cs:114-116 | under the invariant any two main photos are at the same position, so the one main photo cleared is the only one |
| `Photos.AddCount` | DatingApp.Api/Controllers/PhotoController.cs:84-87 | appending the built photo to any collection raises the main count from 0 to 1 and leaves any other count unchanged |
| `Photos.PhotoWithId` | DatingApp.Api/Controllers/PhotoController.cs:133-136 | the photo `GetPhoto(id)` loads after the membership check (also at line 109): it is in the user's collection with that id, and with unique ids it is the only photo with that id |
| `Photos.NewPhotoMain` | DatingApp.Api/Controllers/PhotoController.cs:84-85 | for `NewPhoto`, the photo built at lines 78-85: under the invariant it is main exactly when the collection is empty |
| `Photos.AddKeepsInvariant` | DatingApp.Api/Controllers/PhotoController.cs:78-87 | appending `NewPhoto` (the photo built from the upload's url and public id at lines 78-85) under a fresh id keeps exactly-one-main and unique ids |
| `Photos.PromotedSpec` | DatingApp.Api/Controllers/PhotoController.cs:114-116 | for `Promoted`, the two flag flips at lines 115-116: promoting a non-main photo keeps the length, every id, url and public id; afterwards a photo is main exactly when it is the target; the old main photo only loses its flag; the target only gains it; every other photo is unchanged; the invariant holds |
| `Photos.RemovedSpec` | DatingApp.Api/Controllers/PhotoController.cs:138-155 | for `Removed`, the removal staged by `_repo.Delete` at lines 149 and 154: removing a non-main photo removes exactly that photo (as a multiset and by membership), leaves no photo with its id and keeps the invariant and unique ids |
| `PhotoController.MessagesDistinct` | DatingApp.Api/Controllers/PhotoController.cs:95-161 | `Message` gives each refusal a text of its own: the texts at lines 95, 112, 122, 139 and 161, plus "No image was uploaded", which is the model's own text for the refusal that replaces the null dereference at line 78 |
| `PhotoController.User.AddPhotoForUser` | DatingApp.Api/Controllers/PhotoController.cs:52-96 | another caller gets Unauthorized, no upload call is made and nothing changes; for the owner the upload call is made exactly when the file is not empty; an empty file or an upload that returned no image is refused with no change; a failed commit answers "Could not add photo" with no change; otherwise the answer is Created with the built photo (upload url and public id, main iff no photo was main), which is appended after the unchanged old photos |
| `PhotoController.User.SetMainPhoto` | DatingApp.Api/Controllers/PhotoController.cs:99-123 | another caller, or a photo id not in the collection, gets Unauthorized with no change; a photo already main gets "This is already a main photo" with no change; otherwise a successful commit answers NoContent with the promoted collection and a failed one "Could not set photo to main" with no change |
| `PhotoController.User.DeletePhoto` | DatingApp.Api/Controllers/PhotoController.cs:126-162 | another caller or a foreign photo id gets Unauthorized, and the main photo gets "You can not delete your main photo"; these make no remote call and no change. For a non-main photo the destroy call is made exactly when it has a public id. The photo is removed on a successful commit when it has no public id or the destroy answered "ok", and otherwise stays. A failed commit answers "Failed to delete the photo" with no change |

## Left out

- `GetPhoto` (DatingApp.Api/Controllers/PhotoController.cs:41-49) is a read and a mapping to a return object; it is not modelled.
- The image host client is not modelled: its account setup, the upload with its 500×500 face-centred fill crop, and the destroy call. Only their answers enter, as the `upload` and `destroyResult` parameters.
- Repository behaviour is not modelled: `GetUser`, `GetPhoto`, `GetMainPhotoForUser`, `Delete` and `SaveAll`. A missing user or photo would be a null dereference in the code. The model's `User` is the user as loaded, and a photo is looked up only after the membership check. `SaveAll` is the `commitOk` parameter.
- AddPhotoForUser: the code does not guard a missing upload result (an empty file, or an upload that returned no image); it then dereferences a missing URI at line 78. The model refuses both cases with `BadRequest(NoUploadedImage)` instead, with a message of its own.
- AddPhotoForUser: a failed commit after the upload call leaves the uploaded remote image orphaned. The contract shows this: `uploadRequested` holds while the collection stays as it was. No compensating destroy is modelled, because the code makes none at lines 89-95.
- DeletePhoto: a destroy that answered `"ok"` followed by a failed commit (lines 158-161) leaves a stored photo whose remote image is gone. The contract shows this too: `destroyed` is the photo's public id while the collection stays as it was.
- DeletePhoto: whether `SaveAll` succeeds when nothing was staged (the destroy did not answer `"ok"`) depends on the repository, which is not part of this model. `commitOk` is a free input, so the model allows an `Ok` answer with the photo kept.
- On a failed commit the model keeps the committed collection. The in-memory entities, whose flags the code has already changed, are not modelled.
- Claims parsing, DTO mapping, the `CreatedAtRoute`, `NoContent` and `Ok` result objects, and `async` are not modelled. The caller id is a parameter, and `Created` carries the photo itself.
- The photo's owning user id is not modelled. The controller reads it only for the route values that `CreatedAtRoute` gets at line 93, and those are left out with `CreatedAtRoute`.
- AddPhotoForUser: `fileLength` cannot stand for a form with no file at all. In that case `photoForCreationDto.File` is null and line 63 dereferences it.
- AddPhotoForUser: the model assumes that the mapping at line 81 copies `Url` and `PublicId` into the photo and leaves `IsMain` false. DatingApp.Api/Helpers/AutoMapperProfiles.cs:10-30 declares no map for that conversion, so where it is configured is not part of this model.
- Concurrent actions on one user are not modelled. Keeping one main photo under interleaving is the database's job.
- The rest of the repository (user controller, mapping profiles, seeding, the browser client) is not part of this model.
