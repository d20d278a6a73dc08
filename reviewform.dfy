// src/components/Reviews/ReviewForm.tsx: the review form. It holds the star
// rating chosen by clicking (0 until one is chosen), the comment, and up to
// five photos with their preview URLs. Submitting does nothing while no
// rating is chosen, while the comment is empty or while the parent is busy.
// Preview URLs come from the caller.

module ReviewForm {
  import opened Common
  import Seqs

  type File = string

  const MaxPhotos: nat := 5

  /** The argument of `onSubmit`. */
  datatype ReviewData = ReviewData(rating: int, comment: string, photos: seq<File>)

  class Form {
    var rating: int
    var comment: string
    var photos: seq<File>
    var previews: seq<string>

    /** No rating yet (0) or one of the five stars; at most five photos,
        each with its preview. */
    predicate Valid()
      reads this
    {
      && 0 <= rating <= 5
      && |photos| <= MaxPhotos
      && |previews| == |photos|
    }

    constructor ()
      ensures Valid()
      ensures rating == 0 && comment == "" && photos == [] && previews == []
    {
      rating, comment := 0, "";
      photos, previews := [], [];
    }

    /** Clicking star `value`; the form offers the values 1 to 5. */
    method SetRating(value: int)
      requires Valid() && 1 <= value <= 5
      modifies this
      ensures rating == value
      ensures comment == old(comment) && photos == old(photos) && previews == old(previews)
      ensures Valid()
    {
      rating := value;
    }

    method SetComment(text: string)
      requires Valid()
      modifies this
      ensures comment == text
      ensures rating == old(rating) && photos == old(photos) && previews == old(previews)
      ensures Valid()
    {
      comment := text;
    }

    /** `handlePhotoChange`: a batch that would take the count above five is
        refused whole; otherwise the files and their previews are appended. */
    method HandlePhotoChange(files: seq<File>, newPreviews: seq<string>) returns (accepted: bool)
      requires Valid() && |newPreviews| == |files|
      modifies this
      ensures accepted <==> |files| + |old(photos)| <= MaxPhotos
      ensures accepted ==> photos == old(photos) + files && previews == old(previews) + newPreviews
      ensures !accepted ==> photos == old(photos) && previews == old(previews)
      ensures rating == old(rating) && comment == old(comment)
      ensures Valid()
    {
      if |files| + |photos| > MaxPhotos {
        return false;
      }
      photos := photos + files;
      previews := previews + newPreviews;
      return true;
    }

    /** `removePhoto(index)`: the photo and its preview at that position go. */
    method RemovePhoto(index: int)
      requires Valid()
      modifies this
      ensures photos == Seqs.RemoveAt(old(photos), index)
      ensures previews == Seqs.RemoveAt(old(previews), index)
      ensures rating == old(rating) && comment == old(comment)
      ensures Valid()
    {
      photos := Seqs.RemoveAt(photos, index);
      previews := Seqs.RemoveAt(previews, index);
    }

    /** Pressing "Submit Review": the button is disabled while the parent is
        `loading` or no star is chosen, the browser refuses to submit while
        the `required` comment is empty, and `handleSubmit` itself returns
        while the rating is 0. Otherwise the current rating (between 1 and
        5), the non-empty comment and the photos go to `onSubmit`. */
    method Submit(loading: bool) returns (r: Option<ReviewData>)
      requires Valid()
      ensures r.None? <==> loading || rating == 0 || comment == ""
      ensures r.Some? ==> r.value == ReviewData(rating, comment, photos) && 1 <= r.value.rating <= 5
      ensures r.Some? ==> r.value.comment != "" && |r.value.photos| <= MaxPhotos
    {
      if loading || rating == 0 {
        return None;
      }
      if comment == "" {
        return None;
      }
      return Some(ReviewData(rating, comment, photos));
    }
  }
}
