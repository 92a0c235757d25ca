/**
 * The checks the admin screens make on a chosen file before uploading it
 * (src/components/admin/ProjectForm.tsx and src/components/admin/SiteImagesManager.tsx):
 * an image MIME type and at most 5 MiB.
 */
module ImageUpload {
  import opened Text

  /** 5 * 1024 * 1024 bytes. */
  const MaxImageBytes := 5 * 1024 * 1024

  /** `file.type.startsWith('image/')` and not `file.size > 5 * 1024 * 1024`. */
  predicate UploadAllowed(fileType: string, size: nat) {
    StartsWith(fileType, "image/") && size <= MaxImageBytes
  }

  /** The bound is inclusive: exactly 5 MiB is accepted, one byte more is refused. */
  lemma SizeBoundInclusive(fileType: string)
    requires StartsWith(fileType, "image/")
    ensures UploadAllowed(fileType, 5242880)
    ensures !UploadAllowed(fileType, 5242881)
  {
  }

  /** Any `image/` subtype within the bound is accepted. */
  lemma ImageSubtypeAllowed(subtype: string, size: nat)
    requires size <= MaxImageBytes
    ensures UploadAllowed("image/" + subtype, size)
  {
    assert ("image/" + subtype)[..6] == "image/";
  }

  /** A file that is accepted stays accepted at any smaller size. */
  lemma SmallerAllowed(fileType: string, size: nat, smaller: nat)
    requires UploadAllowed(fileType, size) && smaller <= size
    ensures UploadAllowed(fileType, smaller)
  {
  }

  /** A MIME type outside `image/` is refused whatever the size. */
  lemma NonImageRefused()
    ensures forall size: nat :: !UploadAllowed("application/pdf", size)
  {
    assert "application/pdf"[..6][0] != "image/"[0];
  }
}
