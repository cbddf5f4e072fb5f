/** The comment list under a post: it loads the post's comments from the
    `comments` table, reports their number to the card, and posts a new
    comment with the trimmed text of the composer. */
module CommentSection {
  import opened Wrappers
  import opened Seqs
  import opened Text
  import opened Store
  import opened Toasts

  /** A comment row; its id, creation time and the author's profile join
      are left out, and table order stands for creation order. */
  datatype CommentRow = CommentRow(postId: string, userId: string, content: string)

  /** Row filter `.eq("post_id", postId)`. */
  function OnPost(postId: string): CommentRow -> bool
  {
    (c: CommentRow) => c.postId == postId
  }

  /** The post's comments in table order. */
  function CommentsOf(rows: seq<CommentRow>, postId: string): (r: seq<CommentRow>)
    ensures IsSubsequence(r, rows)
    ensures forall c :: c in r ==> c.postId == postId
    ensures forall c :: c in rows && c.postId == postId ==> c in r
    ensures forall c :: multiset(r)[c] == if c.postId == postId then multiset(rows)[c] else 0
  {
    FilterMultiset(rows, OnPost(postId));
    Filter(rows, OnPost(postId))
  }

  /** A comment inserted on this post shows up last in its list; one on
      another post leaves the list alone. */
  lemma {:induction false} CommentsAfterInsert(rows: seq<CommentRow>, c: CommentRow, postId: string)
    ensures CommentsOf(rows + [c], postId) ==
            CommentsOf(rows, postId) + (if c.postId == postId then [c] else [])
  {
    FilterAppend(rows, [c], OnPost(postId));
    assert [c][1..] == [];
  }

  class CommentSection {
    const postId: string
    /** The signed-in user's id, `None` when signed out. */
    const viewer: Option<string>
    /** Whether the card supplied `onCommentCountChange`. */
    const hasOnCountChange: bool
    var comments: seq<CommentRow>
    var newComment: string
    var isLoading: bool
    var isSubmitting: bool
    /** The counts reported through `onCommentCountChange`, in order. */
    var countReports: seq<nat>

    constructor (postId: string, viewer: Option<string>, hasOnCountChange: bool)
      ensures this.postId == postId && this.viewer == viewer
      ensures this.hasOnCountChange == hasOnCountChange
      ensures comments == [] && newComment == "" && !isLoading && !isSubmitting
      ensures countReports == []
    {
      this.postId := postId;
      this.viewer := viewer;
      this.hasOnCountChange := hasOnCountChange;
      comments := [];
      newComment := "";
      isLoading := false;
      isSubmitting := false;
      countReports := [];
    }

    method SetInput(text: string)
      modifies this`newComment
      ensures newComment == text
    {
      newComment := text;
    }

    /** The post button is disabled for a blank composer or while submitting. */
    predicate SubmitDisabled()
      reads this
      ensures SubmitDisabled() <==> AllSpace(newComment) || isSubmitting
    {
      IsBlank(newComment) || isSubmitting
    }

    /** `fetchComments` up to its `await`. */
    method BeginFetch()
      modifies this`isLoading
      ensures isLoading
    {
      isLoading := true;
    }

    /** `fetchComments` after its `await`: on success the list is the post's
        comments and their number is reported; on an error the list is kept
        and nothing is reported. Loading ends either way. */
    method FinishFetch(table: Table<CommentRow>, queryOk: bool)
      modifies this`comments, this`isLoading, this`countReports
      ensures queryOk ==> comments == CommentsOf(table.rows, postId)
      ensures queryOk ==>
        countReports == old(countReports) + (if hasOnCountChange then [|comments|] else [])
      ensures !queryOk ==> comments == old(comments) && countReports == old(countReports)
      ensures !isLoading
    {
      if queryOk {
        comments := CommentsOf(table.rows, postId);
        if hasOnCountChange {
          countReports := countReports + [|comments|];
        }
      }
      isLoading := false;
    }

    method FetchComments(table: Table<CommentRow>, queryOk: bool)
      modifies this`comments, this`isLoading, this`countReports
      ensures queryOk ==> comments == CommentsOf(table.rows, postId)
      ensures queryOk ==>
        countReports == old(countReports) + (if hasOnCountChange then [|comments|] else [])
      ensures !queryOk ==> comments == old(comments) && countReports == old(countReports)
      ensures !isLoading
    {
      BeginFetch();
      FinishFetch(table, queryOk);
    }

    /** `handleSubmit` up to its `await`: a blank composer or a signed-out
        viewer stops here; otherwise submitting starts and the row to insert
        carries the post, the viewer and the trimmed text. */
    method BeginSubmit() returns (row: Option<CommentRow>)
      modifies this`isSubmitting
      ensures row.None? <==> IsBlank(newComment) || viewer.None?
      ensures row.Some? ==>
        row.value == CommentRow(postId, viewer.value, Trim(newComment)) &&
        Trimmed(row.value.content) && isSubmitting
      ensures row.None? ==> isSubmitting == old(isSubmitting)
    {
      if IsBlank(newComment) || viewer.None? {
        return None;
      }
      isSubmitting := true;
      row := Some(CommentRow(postId, viewer.value, Trim(newComment)));
    }

    /** `handleSubmit` after its `await`. An error keeps the typed text and
        raises a notice; success clears the composer and reloads the list,
        whose `await` the handler does not wait for and which the model runs
        to its end here. Submitting ends either way. */
    method FinishSubmit(row: CommentRow, table: Table<CommentRow>, insertOk: bool, fetchOk: bool)
      returns (notice: Option<Toast>)
      modifies this, table
      ensures table.rows == Apply(old(table.rows), Insert(row), insertOk)
      ensures !insertOk ==> newComment == old(newComment) && comments == old(comments) &&
                            countReports == old(countReports) &&
                            notice == Some(Failure("Failed to post comment"))
      ensures insertOk ==> newComment == "" && notice.None?
      ensures insertOk && fetchOk ==> comments == CommentsOf(table.rows, postId)
      ensures insertOk && fetchOk ==>
        countReports == old(countReports) + (if hasOnCountChange then [|comments|] else [])
      ensures insertOk && !fetchOk ==> comments == old(comments) && countReports == old(countReports)
      ensures !isSubmitting && isLoading == (old(isLoading) && !insertOk)
    {
      table.Perform(Insert(row), insertOk);
      if !insertOk {
        notice := Some(Failure("Failed to post comment"));
      } else {
        newComment := "";
        FetchComments(table, fetchOk);
        notice := None;
      }
      isSubmitting := false;
    }

    /** `handleSubmit` as one step. A blank composer or a signed-out viewer
        changes nothing at all. When both the insert and the reload succeed
        on a list that showed the table, the new comment is appended to the
        list shown before. */
    method HandleSubmit(table: Table<CommentRow>, insertOk: bool, fetchOk: bool)
      returns (notice: Option<Toast>)
      modifies this, table
      ensures IsBlank(old(newComment)) || viewer.None? ==>
        unchanged(this) && table.rows == old(table.rows) && notice.None?
      ensures !IsBlank(old(newComment)) && viewer.Some? ==>
        table.rows == Apply(old(table.rows),
                            Insert(CommentRow(postId, viewer.value, Trim(old(newComment)))), insertOk) &&
        !isSubmitting
      ensures !IsBlank(old(newComment)) && viewer.Some? && !insertOk ==>
        newComment == old(newComment) && comments == old(comments) &&
        notice == Some(Failure("Failed to post comment"))
      ensures !IsBlank(old(newComment)) && viewer.Some? && !insertOk ==>
        countReports == old(countReports)
      ensures !IsBlank(old(newComment)) && viewer.Some? && insertOk ==>
        newComment == "" && notice.None?
      ensures !IsBlank(old(newComment)) && viewer.Some? && insertOk && fetchOk ==>
        comments == CommentsOf(table.rows, postId) &&
        countReports == old(countReports) + (if hasOnCountChange then [|comments|] else [])
      ensures !IsBlank(old(newComment)) && viewer.Some? && insertOk && !fetchOk ==>
        comments == old(comments) && countReports == old(countReports)
      ensures !IsBlank(old(newComment)) && viewer.Some? ==>
        isLoading == (old(isLoading) && !insertOk)
      ensures !IsBlank(old(newComment)) && viewer.Some? && insertOk && fetchOk &&
              old(comments) == CommentsOf(old(table.rows), postId) ==>
        comments == old(comments) + [CommentRow(postId, viewer.value, Trim(old(newComment)))]
    {
      ghost var rows0 := table.rows;
      var row := BeginSubmit();
      if row.None? {
        return None;
      }
      notice := FinishSubmit(row.value, table, insertOk, fetchOk);
      CommentsAfterInsert(rows0, row.value, postId);
    }
  }
}
