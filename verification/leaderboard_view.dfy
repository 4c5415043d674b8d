/** The leaderboard screen: the rank shown on each line, the signed-in user's
    own rank, the highlight of that user's lines and the medal category of a
    rank. */
module LeaderboardView {
  import opened Common
  import opened ClientApp

  /** A leaderboard line as the client keeps it; the server's rank is
      carried along but the screen numbers lines itself. */
  datatype Entry = Entry(username: string, score: int, rank: Option<int>)

  /** `findIndex` by username: the first matching position, or -1. */
  function FindIndex(board: seq<Entry>, name: string): (k: int)
    ensures -1 <= k < |board|
    ensures k >= 0 ==> board[k].username == name
    ensures k >= 0 ==> forall j :: 0 <= j < k ==> board[j].username != name
    ensures k == -1 <==> forall j :: 0 <= j < |board| ==> board[j].username != name
  {
    if |board| == 0 then -1
    else if board[0].username == name then 0
    else
      var k := FindIndex(board[1..], name);
      assert forall j :: 1 <= j < |board| ==> board[j] == board[1..][j - 1];
      if k == -1 then -1 else k + 1
  }

  /** `currentUserRank`: one more than the first line with the user's name,
      0 when there is none or nobody is signed in. */
  function CurrentUserRank(board: seq<Entry>, current: Option<ClientUser>): (rank: nat)
    ensures rank <= |board|
    ensures current.None? ==> rank == 0
    ensures current.Some? ==> (rank == 0 <==> forall j :: 0 <= j < |board| ==> board[j].username != current.value.username)
    ensures rank > 0 ==>
      && current.Some?
      && board[rank - 1].username == current.value.username
      && forall j :: 0 <= j < rank - 1 ==> board[j].username != current.value.username
  {
    if current.Some? then FindIndex(board, current.value.username) + 1 else 0
  }

  /** The shared switch behind `getRankIcon` and `getRankColor`. */
  datatype Category = Gold | Silver | Bronze | Standard

  function CategoryOf(rank: int): (c: Category)
    ensures c == Standard <==> rank != 1 && rank != 2 && rank != 3
  {
    match rank
    case 1 => Gold
    case 2 => Silver
    case 3 => Bronze
    case _ => Standard
  }

  /** The podium ranks each get their own category. */
  lemma PodiumIsDistinct(r1: int, r2: int)
    requires 1 <= r1 <= 3 && 1 <= r2 <= 3 && r1 != r2
    ensures CategoryOf(r1) != CategoryOf(r2)
  {
  }

  /** One rendered line. */
  datatype Line = Line(username: string, score: int, rank: nat, highlighted: bool, category: Category)

  /** The rendered list: line i has rank i + 1, and is highlighted when its
      name is the signed-in user's. */
  function Lines(board: seq<Entry>, current: Option<ClientUser>): (lines: seq<Line>)
    ensures |lines| == |board|
    ensures forall i :: 0 <= i < |lines| ==>
      && lines[i].rank == i + 1
      && lines[i].username == board[i].username && lines[i].score == board[i].score
      && (lines[i].highlighted <==> current.Some? && current.value.username == board[i].username)
  {
    seq(|board|, i requires 0 <= i < |board| =>
      var rank := i + 1;
      Line(board[i].username, board[i].score, rank,
           current.Some? && current.value.username == board[i].username, CategoryOf(rank)))
  }

  /** The user's rank is the rank of the first highlighted line; without a
      rank, no line is highlighted. */
  lemma RankIsFirstHighlight(board: seq<Entry>, current: Option<ClientUser>)
    ensures var rank := CurrentUserRank(board, current);
      var lines := Lines(board, current);
      && (rank > 0 ==> lines[rank - 1].highlighted && lines[rank - 1].rank == rank)
      && (forall j :: 0 <= j < |lines| && lines[j].highlighted ==> rank > 0 && j >= rank - 1)
  {
  }

  /** Only the first three lines carry a medal, each a different one, and
      the user's own line takes its icon and rank colour from the category
      of their rank (its background is the highlight, whatever the rank). */
  lemma MedalsFollowRank(board: seq<Entry>, current: Option<ClientUser>)
    ensures var lines := Lines(board, current);
      var rank := CurrentUserRank(board, current);
      && (forall i :: 0 <= i < |lines| ==> (lines[i].category != Standard <==> i < 3))
      && (forall i, j :: 0 <= i < j < |lines| && j < 3 ==> lines[i].category != lines[j].category)
      && (rank > 0 ==> lines[rank - 1].category == CategoryOf(rank) && (CategoryOf(rank) != Standard <==> rank <= 3))
  {
    var lines := Lines(board, current);
    forall i | 0 <= i < |lines|
      ensures lines[i].category == CategoryOf(i + 1)
    {
    }
  }

  /** A name on several lines lights all of them up, while the rank names
      only the first. */
  lemma SharedNameHighlightsEveryLine(board: seq<Entry>, u: ClientUser, i: nat, j: nat)
    requires i < j < |board|
    requires board[i].username == u.username && board[j].username == u.username
    ensures var lines := Lines(board, Some(u));
      var rank := CurrentUserRank(board, Some(u));
      && lines[i].highlighted && lines[j].highlighted
      && 0 < rank <= i + 1 < lines[j].rank
  {
  }
}
