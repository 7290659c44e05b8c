/** The sync entry points: `checkNewPosts`, `publishLastPost` and
    `getInitialData`.

    The server calls they make are parameters: `groupIdOf` is
    `extractVkGroupId` (`""` for `null`), `fetch` is `getVkPosts` and `send`
    is `sendPostToServer`.  `timestamp` is the formatted time written into
    ledger rows. */
module Sync {
  import opened Wrappers
  import opened Bindings
  import opened SheetNames
  import opened Posts
  import opened Ledger
  import opened Licensing

  /** The answer of `sendPostToServer`; 0 stands for a missing number. */
  datatype SendReply = SendReply(success: bool, messageId: int, formattedTextLength: int, error: string)

  /** One entry of `results`. */
  datatype BindingResult =
    | FetchFailed(binding: string, error: string)
    | Delivered(binding: string, postId: int, reply: SendReply)

  /** The ledger, `totalSent` and `results` as the loops leave them. */
  datatype Progress = Progress(sheets: Sheets, totalSent: int, results: seq<BindingResult>)

  datatype CheckReport = CheckReport(totalSent: int, results: seq<BindingResult>)

  datatype InitialData = InitialData(license: License, bindings: seq<Binding>)

  /** The number of posts asked for: 1, or the binding's setting capped
      at 10. */
  function FetchCount(b: Binding): (r: int)
    ensures r != 0 && r <= 10
  {
    if b.syncPostsCount != 0 then (if b.syncPostsCount < 10 then b.syncPostsCount else 10) else 1
  }

  /** The metadata written for a sent post. */
  function SendMeta(reply: SendReply, post: Post): PostMeta
  {
    PostMeta(reply.messageId, reply.formattedTextLength, post.attachmentCount)
  }

  /** The posts the ledger does not hold yet, in their order. */
  function NewPosts(sheets: Sheets, name: string, posts: seq<Post>): (r: seq<Post>)
    ensures |r| <= |posts|
  {
    if posts == [] then []
    else
      var last := posts[|posts| - 1];
      NewPosts(sheets, name, posts[..|posts| - 1]) + (if Recorded(sheets, name, last.id) then [] else [last])
  }

  /** One send: the row is written and counted only on success, and the
      reply is recorded either way. */
  function SendStep(p: Progress, b: Binding, name: string, post: Post, reply: SendReply, timestamp: string): Progress
  {
    Progress(
      if reply.success then Marked(p.sheets, name, post.id, SendMeta(reply, post), timestamp) else p.sheets,
      p.totalSent + (if reply.success then 1 else 0),
      p.results + [Delivered(b.id, post.id, reply)])
  }

  /** The inner `forEach` over the new posts. */
  function SendAll(p: Progress, b: Binding, name: string, posts: seq<Post>,
                   send: (Binding, Post) -> SendReply, timestamp: string): Progress
  {
    if posts == [] then p
    else
      var last := posts[|posts| - 1];
      SendStep(SendAll(p, b, name, posts[..|posts| - 1], send, timestamp), b, name, last, send(b, last), timestamp)
  }

  /** One active binding's turn of `checkNewPosts`. */
  function CheckBinding(p: Progress, b: Binding, groupIdOf: string -> string,
                        fetch: (string, int) -> Result<seq<Post>, string>,
                        send: (Binding, Post) -> SendReply, timestamp: string): Progress
  {
    var gid := groupIdOf(b.vkGroupUrl);
    var name := ExtractSheetName(b.vkGroupUrl);
    if gid == "" || name.None? then p
    else
      match fetch(gid, FetchCount(b))
      case Failure(e) => p.(results := p.results + [FetchFailed(b.id, e)])
      case Success(posts) => SendAll(p, b, name.value, NewPosts(p.sheets, name.value, posts), send, timestamp)
  }

  /** The outer `forEach` over the active bindings. */
  function CheckAll(p: Progress, bs: seq<Binding>, groupIdOf: string -> string,
                    fetch: (string, int) -> Result<seq<Post>, string>,
                    send: (Binding, Post) -> SendReply, timestamp: string): Progress
  {
    if bs == [] then p
    else CheckBinding(CheckAll(p, bs[..|bs| - 1], groupIdOf, fetch, send, timestamp), bs[|bs| - 1],
                      groupIdOf, fetch, send, timestamp)
  }

  /** The number of successful sends among the results. */
  function Successes(rs: seq<BindingResult>): nat
  {
    if rs == [] then 0
    else Successes(rs[..|rs| - 1]) + (if rs[|rs| - 1].Delivered? && rs[|rs| - 1].reply.success then 1 else 0)
  }

  /** `publishLastPost` once the license and the bindings are at hand: the
      result and the ledger it leaves. */
  datatype Published = Published(result: Result<SendReply, string>, sheets: Sheets)

  function PublishSpec(sheets: Sheets, bs: seq<Binding>, bindingId: string, groupIdOf: string -> string,
                       fetch: (string, int) -> Result<seq<Post>, string>,
                       send: (Binding, Post) -> SendReply, timestamp: string): Published
  {
    match FindBinding(bs, bindingId)
    case None => Published(Failure("❌ Связка не найдена"), sheets)
    case Some(b) =>
      var gid := groupIdOf(b.vkGroupUrl);
      var name := ExtractSheetName(b.vkGroupUrl);
      if gid == "" || name.None? then Published(Failure("❌ Невозможно определить группу VK"), sheets)
      else
        match fetch(gid, 1)
        case Failure(e) => Published(Failure(e), sheets)
        case Success(posts) =>
          match FirstPublishable(posts)
          case None => Published(Failure("❌ Нет валидных постов для публикации"), sheets)
          case Some(post) =>
            if Recorded(sheets, name.value, post.id) then Published(Failure("❌ Пост уже был отправлен"), sheets)
            else
              var reply := send(b, post);
              Published(Success(reply),
                        if reply.success then Marked(sheets, name.value, post.id, SendMeta(reply, post), timestamp)
                        else sheets)
  }

  // ---------------------------------------------------------------------
  // The methods.

  /** `vkPosts.posts.filter(post => !isPostAlreadySent(sheetName, post.id))` */
  method FilterNew(book: Workbook, name: string, posts: seq<Post>) returns (r: seq<Post>)
    ensures r == NewPosts(book.sheets, name, posts)
  {
    r := [];
    var j := 0;
    while j < |posts|
      invariant 0 <= j <= |posts|
      invariant r == NewPosts(book.sheets, name, posts[..j])
    {
      assert posts[..j + 1][..j] == posts[..j];
      var sent := book.IsPostAlreadySent(name, posts[j].id);
      if !sent {
        r := r + [posts[j]];
      }
      j := j + 1;
    }
    assert posts[..j] == posts;
  }

  method SendPosts(book: Workbook, b: Binding, name: string, posts: seq<Post>,
                   send: (Binding, Post) -> SendReply, timestamp: string,
                   totalSent: int, results: seq<BindingResult>)
    returns (t: int, rs: seq<BindingResult>)
    modifies book
    ensures Progress(book.sheets, t, rs)
         == SendAll(Progress(old(book.sheets), totalSent, results), b, name, posts, send, timestamp)
  {
    ghost var p0 := Progress(book.sheets, totalSent, results);
    t, rs := totalSent, results;
    var j := 0;
    while j < |posts|
      invariant 0 <= j <= |posts|
      invariant Progress(book.sheets, t, rs) == SendAll(p0, b, name, posts[..j], send, timestamp)
    {
      SendAllSnoc(p0, b, name, posts, j, send, timestamp);
      var post := posts[j];
      var reply := send(b, post);
      if reply.success {
        book.MarkPostAsSent(name, post.id, SendMeta(reply, post), timestamp);
        t := t + 1;
      }
      rs := rs + [Delivered(b.id, post.id, reply)];
      j := j + 1;
    }
    assert posts[..j] == posts;
  }

  method CheckOneBinding(book: Workbook, b: Binding, groupIdOf: string -> string,
                         fetch: (string, int) -> Result<seq<Post>, string>,
                         send: (Binding, Post) -> SendReply, timestamp: string,
                         totalSent: int, results: seq<BindingResult>)
    returns (t: int, rs: seq<BindingResult>)
    modifies book
    ensures Progress(book.sheets, t, rs)
         == CheckBinding(Progress(old(book.sheets), totalSent, results), b, groupIdOf, fetch, send, timestamp)
  {
    t, rs := totalSent, results;
    var gid := groupIdOf(b.vkGroupUrl);
    var name := ExtractSheetName(b.vkGroupUrl);
    if gid == "" || name.None? {
      return;
    }
    var fetched := fetch(gid, FetchCount(b));
    if fetched.Failure? {
      rs := rs + [FetchFailed(b.id, fetched.error)];
      return;
    }
    var unsent := FilterNew(book, name.value, fetched.value);
    t, rs := SendPosts(book, b, name.value, unsent, send, timestamp, t, rs);
  }

  method CheckNewPosts(cache: LicenseCache, book: Workbook, now: int, remote: Option<License>,
                       bindings: Result<seq<Binding>, string>, groupIdOf: string -> string,
                       fetch: (string, int) -> Result<seq<Post>, string>,
                       send: (Binding, Post) -> SendReply, timestamp: string)
    returns (r: Result<CheckReport, string>)
    modifies cache, book
    ensures cache.State() == Lookup(old(cache.State()), false, now, remote).state
    ensures Lookup(old(cache.State()), false, now, remote).result.None? ==>
      r == Failure("❌ Лицензия не найдена") && book.sheets == old(book.sheets)
    ensures Lookup(old(cache.State()), false, now, remote).result.Some? && bindings.Failure? ==>
      r == Failure(bindings.error) && book.sheets == old(book.sheets)
    ensures Lookup(old(cache.State()), false, now, remote).result.Some? && bindings.Success? ==>
      var fin := CheckAll(Progress(old(book.sheets), 0, []), ActiveOnly(bindings.value), groupIdOf, fetch, send, timestamp);
      r == Success(CheckReport(fin.totalSent, fin.results)) && book.sheets == fin.sheets
  {
    var license := cache.GetLicenseCached(false, now, remote);
    if license.None? {
      return Failure("❌ Лицензия не найдена");
    }
    if bindings.Failure? {
      return Failure(bindings.error);
    }
    var active := ActiveOnly(bindings.value);
    ghost var p0 := Progress(book.sheets, 0, []);
    var totalSent := 0;
    var results := [];
    ghost var cs := cache.State();
    var i := 0;
    while i < |active|
      invariant 0 <= i <= |active|
      invariant cache.State() == cs
      invariant Progress(book.sheets, totalSent, results) == CheckAll(p0, active[..i], groupIdOf, fetch, send, timestamp)
    {
      CheckAllSnoc(p0, active, i, groupIdOf, fetch, send, timestamp);
      totalSent, results := CheckOneBinding(book, active[i], groupIdOf, fetch, send, timestamp, totalSent, results);
      i := i + 1;
    }
    assert active[..i] == active;
    return Success(CheckReport(totalSent, results));
  }

  method PublishLastPost(cache: LicenseCache, book: Workbook, now: int, remote: Option<License>,
                         bindings: Result<seq<Binding>, string>, bindingId: string, groupIdOf: string -> string,
                         fetch: (string, int) -> Result<seq<Post>, string>,
                         send: (Binding, Post) -> SendReply, timestamp: string)
    returns (r: Result<SendReply, string>)
    modifies cache, book
    ensures cache.State() == Lookup(old(cache.State()), false, now, remote).state
    ensures Lookup(old(cache.State()), false, now, remote).result.None? ==>
      r == Failure("❌ Лицензия не найдена") && book.sheets == old(book.sheets)
    ensures Lookup(old(cache.State()), false, now, remote).result.Some? && bindings.Failure? ==>
      r == Failure(bindings.error) && book.sheets == old(book.sheets)
    ensures Lookup(old(cache.State()), false, now, remote).result.Some? && bindings.Success? ==>
      Published(r, book.sheets)
        == PublishSpec(old(book.sheets), bindings.value, bindingId, groupIdOf, fetch, send, timestamp)
  {
    var license := cache.GetLicenseCached(false, now, remote);
    if license.None? {
      return Failure("❌ Лицензия не найдена");
    }
    if bindings.Failure? {
      return Failure(bindings.error);
    }
    var found := FindBinding(bindings.value, bindingId);
    if found.None? {
      return Failure("❌ Связка не найдена");
    }
    var b := found.value;
    var gid := groupIdOf(b.vkGroupUrl);
    var name := ExtractSheetName(b.vkGroupUrl);
    if gid == "" || name.None? {
      return Failure("❌ Невозможно определить группу VK");
    }
    var fetched := fetch(gid, 1);
    if fetched.Failure? {
      return Failure(fetched.error);
    }
    var post := SafePickLastPost(fetched.value);
    if post.None? {
      return Failure("❌ Нет валидных постов для публикации");
    }
    var sent := book.IsPostAlreadySent(name.value, post.value.id);
    if sent {
      return Failure("❌ Пост уже был отправлен");
    }
    var reply := send(b, post.value);
    if reply.success {
      book.MarkPostAsSent(name.value, post.value.id, SendMeta(reply, post.value), timestamp);
    }
    return Success(reply);
  }

  method GetInitialData(cache: LicenseCache, now: int, remote: Option<License>,
                        bindings: Result<seq<Binding>, string>)
    returns (r: Result<InitialData, string>)
    modifies cache
    ensures cache.State() == Lookup(old(cache.State()), false, now, remote).state
    ensures var l := Lookup(old(cache.State()), false, now, remote).result;
      r == if l.None? then Failure("❌ Лицензия не найдена")
           else if bindings.Failure? then Failure(bindings.error)
           else Success(InitialData(l.value, bindings.value))
  {
    var license := cache.GetLicenseCached(false, now, remote);
    if license.None? {
      return Failure("❌ Лицензия не найдена");
    }
    if bindings.Failure? {
      return Failure(bindings.error);
    }
    return Success(InitialData(license.value, bindings.value));
  }

  // ---------------------------------------------------------------------
  // Unfolding one more element of the folds.

  lemma SendAllSnoc(p: Progress, b: Binding, name: string, posts: seq<Post>, j: nat,
                    send: (Binding, Post) -> SendReply, timestamp: string)
    requires j < |posts|
    ensures SendAll(p, b, name, posts[..j + 1], send, timestamp)
         == SendStep(SendAll(p, b, name, posts[..j], send, timestamp), b, name, posts[j], send(b, posts[j]), timestamp)
  {
    assert posts[..j + 1][..j] == posts[..j];
    assert posts[..j + 1][j] == posts[j];
  }

  lemma CheckAllSnoc(p: Progress, bs: seq<Binding>, i: nat, groupIdOf: string -> string,
                     fetch: (string, int) -> Result<seq<Post>, string>,
                     send: (Binding, Post) -> SendReply, timestamp: string)
    requires i < |bs|
    ensures CheckAll(p, bs[..i + 1], groupIdOf, fetch, send, timestamp)
         == CheckBinding(CheckAll(p, bs[..i], groupIdOf, fetch, send, timestamp), bs[i], groupIdOf, fetch, send, timestamp)
  {
    assert bs[..i + 1][..i] == bs[..i];
    assert bs[..i + 1][i] == bs[i];
  }

  // ---------------------------------------------------------------------
  // The fetch count.

  /** The count is 1 without a setting, the setting itself up to 10, and
      never more than 10. */
  lemma FetchCountSpec(b: Binding)
    ensures FetchCount(b) <= 10
    ensures b.syncPostsCount == 0 ==> FetchCount(b) == 1
    ensures 1 <= b.syncPostsCount <= 10 ==> FetchCount(b) == b.syncPostsCount
    ensures b.syncPostsCount >= 10 ==> FetchCount(b) == 10
  {
  }

  // ---------------------------------------------------------------------
  // The filter.

  /** The filter works post by post: filtering a + b is filtering a, then
      b, so the new posts keep their order and their repetitions. */
  lemma {:induction false} NewPostsAppend(sheets: Sheets, name: string, a: seq<Post>, b: seq<Post>)
    ensures NewPosts(sheets, name, a + b) == NewPosts(sheets, name, a) + NewPosts(sheets, name, b)
    decreases |b|
  {
    if b == [] {
      assert a + b == a;
    } else {
      var init := b[..|b| - 1];
      assert (a + b)[..|a + b| - 1] == a + init;
      assert (a + b)[|a + b| - 1] == b[|b| - 1];
      NewPostsAppend(sheets, name, a, init);
    }
  }

  /** One post is kept exactly when the ledger does not hold its id. */
  lemma NewPostsSingle(sheets: Sheets, name: string, x: Post)
    ensures NewPosts(sheets, name, [x]) == if Recorded(sheets, name, x.id) then [] else [x]
  {
    assert [x][..0] == [];
  }

  /** The filter keeps exactly the posts whose id the ledger does not
      hold. */
  lemma {:induction false} NewPostsSpec(sheets: Sheets, name: string, posts: seq<Post>)
    ensures forall x :: x in NewPosts(sheets, name, posts) <==> x in posts && !Recorded(sheets, name, x.id)
    ensures |NewPosts(sheets, name, posts)| <= |posts|
  {
    if posts != [] {
      var init := posts[..|posts| - 1];
      NewPostsSpec(sheets, name, init);
      assert forall x :: x in posts <==> x in init || x == posts[|posts| - 1];
    }
  }

  // ---------------------------------------------------------------------
  // `totalSent` counts the successful sends.

  predicate CountsAgree(p: Progress)
  {
    p.totalSent == Successes(p.results)
  }

  lemma SuccessesSnoc(rs: seq<BindingResult>, x: BindingResult)
    ensures Successes(rs + [x]) == Successes(rs) + (if x.Delivered? && x.reply.success then 1 else 0)
  {
    assert (rs + [x])[..|rs|] == rs;
  }

  lemma {:induction false} SendAllCounts(p: Progress, b: Binding, name: string, posts: seq<Post>,
                                         send: (Binding, Post) -> SendReply, timestamp: string)
    requires CountsAgree(p)
    ensures CountsAgree(SendAll(p, b, name, posts, send, timestamp))
  {
    if posts != [] {
      var init := posts[..|posts| - 1];
      var last := posts[|posts| - 1];
      SendAllCounts(p, b, name, init, send, timestamp);
      SuccessesSnoc(SendAll(p, b, name, init, send, timestamp).results, Delivered(b.id, last.id, send(b, last)));
    }
  }

  lemma CheckBindingCounts(p: Progress, b: Binding, groupIdOf: string -> string,
                           fetch: (string, int) -> Result<seq<Post>, string>,
                           send: (Binding, Post) -> SendReply, timestamp: string)
    requires CountsAgree(p)
    ensures CountsAgree(CheckBinding(p, b, groupIdOf, fetch, send, timestamp))
  {
    var gid := groupIdOf(b.vkGroupUrl);
    var name := ExtractSheetName(b.vkGroupUrl);
    if gid != "" && name.Some? {
      match fetch(gid, FetchCount(b))
      case Failure(e) =>
        SuccessesSnoc(p.results, FetchFailed(b.id, e));
      case Success(posts) =>
        SendAllCounts(p, b, name.value, NewPosts(p.sheets, name.value, posts), send, timestamp);
    }
  }

  lemma {:induction false} CheckAllCounts(p: Progress, bs: seq<Binding>, groupIdOf: string -> string,
                                          fetch: (string, int) -> Result<seq<Post>, string>,
                                          send: (Binding, Post) -> SendReply, timestamp: string)
    requires CountsAgree(p)
    ensures CountsAgree(CheckAll(p, bs, groupIdOf, fetch, send, timestamp))
  {
    if bs != [] {
      CheckAllCounts(p, bs[..|bs| - 1], groupIdOf, fetch, send, timestamp);
      CheckBindingCounts(CheckAll(p, bs[..|bs| - 1], groupIdOf, fetch, send, timestamp), bs[|bs| - 1],
                         groupIdOf, fetch, send, timestamp);
    }
  }

  /** The `totalSent` that `checkNewPosts` reports is the number of
      successful sends among its results. */
  lemma TotalSentIsSuccesses(sheets: Sheets, bs: seq<Binding>, groupIdOf: string -> string,
                             fetch: (string, int) -> Result<seq<Post>, string>,
                             send: (Binding, Post) -> SendReply, timestamp: string)
    ensures var fin := CheckAll(Progress(sheets, 0, []), ActiveOnly(bs), groupIdOf, fetch, send, timestamp);
      fin.totalSent == Successes(fin.results)
  {
    CheckAllCounts(Progress(sheets, 0, []), ActiveOnly(bs), groupIdOf, fetch, send, timestamp);
  }

  // ---------------------------------------------------------------------
  // Every new post is sent and gets its entry, whatever happened to the
  // posts before it.

  lemma {:induction false} SendAllResults(p: Progress, b: Binding, name: string, posts: seq<Post>,
                                          send: (Binding, Post) -> SendReply, timestamp: string)
    ensures var rs := SendAll(p, b, name, posts, send, timestamp).results;
      && |rs| == |p.results| + |posts|
      && rs[..|p.results|] == p.results
      && forall k :: 0 <= k < |posts| ==> rs[|p.results| + k] == Delivered(b.id, posts[k].id, send(b, posts[k]))
  {
    if posts != [] {
      var init := posts[..|posts| - 1];
      SendAllResults(p, b, name, init, send, timestamp);
      var rs0 := SendAll(p, b, name, init, send, timestamp).results;
      var rs := SendAll(p, b, name, posts, send, timestamp).results;
      assert rs == rs0 + [Delivered(b.id, posts[|posts| - 1].id, send(b, posts[|posts| - 1]))];
      forall k | 0 <= k < |posts|
        ensures rs[|p.results| + k] == Delivered(b.id, posts[k].id, send(b, posts[k]))
      {
        if k < |init| {
          assert init[k] == posts[k];
        }
      }
    }
  }

  // ---------------------------------------------------------------------
  // Only successful sends write to the ledger.

  /** Without a successful send the ledger is left as it was. */
  lemma {:induction false} SendAllNoSuccess(p: Progress, b: Binding, name: string, posts: seq<Post>,
                                            send: (Binding, Post) -> SendReply, timestamp: string)
    requires forall k :: 0 <= k < |posts| ==> !send(b, posts[k]).success
    ensures SendAll(p, b, name, posts, send, timestamp).sheets == p.sheets
  {
    if posts != [] {
      var init := posts[..|posts| - 1];
      assert forall k :: 0 <= k < |init| ==> init[k] == posts[k];
      SendAllNoSuccess(p, b, name, init, send, timestamp);
    }
  }

  /** The rows the sends append to the binding's sheet: one per successful
      send of a post with a nonzero id, in the order of the posts. */
  function SentRows(b: Binding, posts: seq<Post>, send: (Binding, Post) -> SendReply, timestamp: string): seq<Row>
  {
    if posts == [] then []
    else
      var last := posts[|posts| - 1];
      var reply := send(b, last);
      SentRows(b, posts[..|posts| - 1], send, timestamp)
        + (if reply.success && last.id != 0 then [SentRow(last.id, SendMeta(reply, last), timestamp)] else [])
  }

  /** The binding's sheet afterwards is its old rows (or a new header) followed
      by exactly the rows of the successful sends; it is created only when
      some such row is written, and a blank name writes nothing. */
  lemma {:induction false} SendAllRows(p: Progress, b: Binding, name: string, posts: seq<Post>,
                                       send: (Binding, Post) -> SendReply, timestamp: string)
    ensures var sh := SendAll(p, b, name, posts, send, timestamp).sheets;
      var rows := SentRows(b, posts, send, timestamp);
      && (name == "" ==> sh == p.sheets)
      && (name != "" ==> sh.Keys == p.sheets.Keys + (if rows == [] then {} else {name}))
      && (name != "" && name in sh ==> sh[name] == (if name in p.sheets then p.sheets[name] else [Header]) + rows)
  {
    if posts != [] {
      var init := posts[..|posts| - 1];
      var last := posts[|posts| - 1];
      var reply := send(b, last);
      SendAllRows(p, b, name, init, send, timestamp);
      var q := SendAll(p, b, name, init, send, timestamp).sheets;
      var rows0 := SentRows(b, init, send, timestamp);
      if reply.success && last.id != 0 && name != "" {
        var row := SentRow(last.id, SendMeta(reply, last), timestamp);
        var base := if name in p.sheets then p.sheets[name] else [Header];
        assert SentRows(b, posts, send, timestamp) == rows0 + [row];
        var sh := Marked(q, name, last.id, SendMeta(reply, last), timestamp);
        if name in q {
          assert sh[name] == q[name] + [row];
          assert q[name] + [row] == base + (rows0 + [row]);
        } else {
          assert rows0 == [] && name !in p.sheets;
          assert sh[name] == [Header] + [row];
        }
      }
    }
  }

  /** A post that is not recorded stays unrecorded when every send of a post
      with its id fails. */
  lemma {:induction false} SendAllFailedNotRecorded(p: Progress, b: Binding, name: string, posts: seq<Post>,
                                                    send: (Binding, Post) -> SendReply, timestamp: string, id: int)
    requires !Recorded(p.sheets, name, id)
    requires forall k :: 0 <= k < |posts| && posts[k].id == id ==> !send(b, posts[k]).success
    ensures !Recorded(SendAll(p, b, name, posts, send, timestamp).sheets, name, id)
  {
    if posts != [] {
      var init := posts[..|posts| - 1];
      var last := posts[|posts| - 1];
      assert forall k :: 0 <= k < |init| ==> init[k] == posts[k];
      SendAllFailedNotRecorded(p, b, name, init, send, timestamp, id);
      var reply := send(b, last);
      if reply.success {
        MarkOtherNotRecorded(SendAll(p, b, name, init, send, timestamp).sheets, name, last.id,
                             SendMeta(reply, last), timestamp, name, id);
      }
    }
  }

  /** No sheet other than the binding's own is touched. */
  lemma {:induction false} SendAllOtherSheets(p: Progress, b: Binding, name: string, posts: seq<Post>,
                                              send: (Binding, Post) -> SendReply, timestamp: string, other: string)
    requires other != name && other in p.sheets
    ensures var sh := SendAll(p, b, name, posts, send, timestamp).sheets;
      other in sh && sh[other] == p.sheets[other]
  {
    if posts != [] {
      SendAllOtherSheets(p, b, name, posts[..|posts| - 1], send, timestamp, other);
    }
  }

  /** The name's sheet is missing or holds a header row. */
  predicate HasHeaderOrMissing(sheets: Sheets, name: string)
  {
    name !in sheets || |sheets[name]| > 0
  }

  lemma {:induction false} SendAllKeepsHeader(p: Progress, b: Binding, name: string, posts: seq<Post>,
                                              send: (Binding, Post) -> SendReply, timestamp: string)
    requires HasHeaderOrMissing(p.sheets, name)
    ensures HasHeaderOrMissing(SendAll(p, b, name, posts, send, timestamp).sheets, name)
  {
    if posts != [] {
      SendAllKeepsHeader(p, b, name, posts[..|posts| - 1], send, timestamp);
    }
  }

  lemma {:induction false} SendAllKeepsRecords(p: Progress, b: Binding, name: string, posts: seq<Post>,
                                               send: (Binding, Post) -> SendReply, timestamp: string,
                                               other: string, id: int)
    requires Recorded(p.sheets, other, id)
    ensures Recorded(SendAll(p, b, name, posts, send, timestamp).sheets, other, id)
  {
    if posts != [] {
      var init := posts[..|posts| - 1];
      var last := posts[|posts| - 1];
      SendAllKeepsRecords(p, b, name, init, send, timestamp, other, id);
      var q := SendAll(p, b, name, init, send, timestamp);
      var reply := send(b, last);
      if reply.success {
        MarkKeepsRecords(q.sheets, name, last.id, SendMeta(reply, last), timestamp, other, id);
      }
    }
  }

  /** Every post sent successfully is recorded in the binding's sheet
      afterwards, unless that sheet existed without even a header. */
  lemma {:induction false} SendAllRecordsSuccesses(p: Progress, b: Binding, name: string, posts: seq<Post>,
                                                   send: (Binding, Post) -> SendReply, timestamp: string)
    requires name != "" && HasHeaderOrMissing(p.sheets, name)
    ensures forall k :: 0 <= k < |posts| && send(b, posts[k]).success && posts[k].id != 0 ==>
      Recorded(SendAll(p, b, name, posts, send, timestamp).sheets, name, posts[k].id)
  {
    if posts != [] {
      var init := posts[..|posts| - 1];
      var last := posts[|posts| - 1];
      SendAllRecordsSuccesses(p, b, name, init, send, timestamp);
      SendAllKeepsHeader(p, b, name, init, send, timestamp);
      var q := SendAll(p, b, name, init, send, timestamp);
      var reply := send(b, last);
      forall k | 0 <= k < |posts| && send(b, posts[k]).success && posts[k].id != 0
        ensures Recorded(SendAll(p, b, name, posts, send, timestamp).sheets, name, posts[k].id)
      {
        if k < |init| {
          assert init[k] == posts[k];
          if reply.success {
            MarkKeepsRecords(q.sheets, name, last.id, SendMeta(reply, last), timestamp, name, posts[k].id);
          }
        } else {
          MarkThenRecorded(q.sheets, name, last.id, SendMeta(reply, last), timestamp);
        }
      }
    }
  }

  // ---------------------------------------------------------------------
  // Only active bindings are processed.

  /** A binding whose URL gives no group id or no sheet name is skipped
      without an entry in the results. */
  lemma CheckBindingSkips(p: Progress, b: Binding, groupIdOf: string -> string,
                          fetch: (string, int) -> Result<seq<Post>, string>,
                          send: (Binding, Post) -> SendReply, timestamp: string)
    requires groupIdOf(b.vkGroupUrl) == "" || ExtractSheetName(b.vkGroupUrl).None?
    ensures CheckBinding(p, b, groupIdOf, fetch, send, timestamp) == p
  {
  }

  /** A binding's turn only appends entries, and all of them name it. */
  lemma CheckBindingResults(p: Progress, b: Binding, groupIdOf: string -> string,
                            fetch: (string, int) -> Result<seq<Post>, string>,
                            send: (Binding, Post) -> SendReply, timestamp: string)
    ensures var rs := CheckBinding(p, b, groupIdOf, fetch, send, timestamp).results;
      && |p.results| <= |rs| && rs[..|p.results|] == p.results
      && forall k :: |p.results| <= k < |rs| ==> rs[k].binding == b.id
  {
    var gid := groupIdOf(b.vkGroupUrl);
    var name := ExtractSheetName(b.vkGroupUrl);
    if gid != "" && name.Some? {
      match fetch(gid, FetchCount(b))
      case Failure(e) =>
        assert (p.results + [FetchFailed(b.id, e)])[..|p.results|] == p.results;
      case Success(posts) =>
        var unsent := NewPosts(p.sheets, name.value, posts);
        SendAllResults(p, b, name.value, unsent, send, timestamp);
        var rs := SendAll(p, b, name.value, unsent, send, timestamp).results;
        forall k | |p.results| <= k < |rs|
          ensures rs[k].binding == b.id
        {
          var j := k - |p.results|;
          assert rs[|p.results| + j] == Delivered(b.id, unsent[j].id, send(b, unsent[j]));
        }
    }
  }

  lemma {:induction false} CheckAllResults(p: Progress, bs: seq<Binding>, groupIdOf: string -> string,
                                           fetch: (string, int) -> Result<seq<Post>, string>,
                                           send: (Binding, Post) -> SendReply, timestamp: string)
    ensures var rs := CheckAll(p, bs, groupIdOf, fetch, send, timestamp).results;
      && |p.results| <= |rs| && rs[..|p.results|] == p.results
      && forall k :: |p.results| <= k < |rs| ==> exists b :: b in bs && b.id == rs[k].binding
  {
    if bs != [] {
      var init := bs[..|bs| - 1];
      var last := bs[|bs| - 1];
      CheckAllResults(p, init, groupIdOf, fetch, send, timestamp);
      var q := CheckAll(p, init, groupIdOf, fetch, send, timestamp);
      CheckBindingResults(q, last, groupIdOf, fetch, send, timestamp);
      var rs := CheckAll(p, bs, groupIdOf, fetch, send, timestamp).results;
      forall k | |p.results| <= k < |rs|
        ensures exists b :: b in bs && b.id == rs[k].binding
      {
        if k < |q.results| {
          assert rs[k] == q.results[k];
          var b :| b in init && b.id == q.results[k].binding;
          assert b in bs;
        } else {
          assert last in bs;
        }
      }
    }
  }

  /** Every entry `checkNewPosts` reports belongs to an active binding. */
  lemma OnlyActiveBindings(sheets: Sheets, bs: seq<Binding>, groupIdOf: string -> string,
                           fetch: (string, int) -> Result<seq<Post>, string>,
                           send: (Binding, Post) -> SendReply, timestamp: string)
    ensures var rs := CheckAll(Progress(sheets, 0, []), ActiveOnly(bs), groupIdOf, fetch, send, timestamp).results;
      forall k :: 0 <= k < |rs| ==> exists b :: b in bs && IsActive(b) && b.id == rs[k].binding
  {
    CheckAllResults(Progress(sheets, 0, []), ActiveOnly(bs), groupIdOf, fetch, send, timestamp);
    ActiveOnlySpec(bs);
  }

  // ---------------------------------------------------------------------
  // Publishing the last post.

  /** No ledger sheet exists without its header row. */
  predicate NoEmptySheets(sheets: Sheets)
  {
    forall k :: k in sheets ==> |sheets[k]| > 0
  }

  /** A send happens only for a post the ledger does not hold: the reply
      returned is the answer for the first publishable post of the binding,
      and that post was not recorded. */
  lemma PublishNeverResends(sheets: Sheets, bs: seq<Binding>, bindingId: string, groupIdOf: string -> string,
                            fetch: (string, int) -> Result<seq<Post>, string>,
                            send: (Binding, Post) -> SendReply, timestamp: string)
    requires PublishSpec(sheets, bs, bindingId, groupIdOf, fetch, send, timestamp).result.Success?
    ensures var b := FindBinding(bs, bindingId).value;
      && FindBinding(bs, bindingId).Some?
      && ExtractSheetName(b.vkGroupUrl).Some? && fetch(groupIdOf(b.vkGroupUrl), 1).Success?
      && var post := FirstPublishable(fetch(groupIdOf(b.vkGroupUrl), 1).value);
         && post.Some?
         && !Recorded(sheets, ExtractSheetName(b.vkGroupUrl).value, post.value.id)
         && PublishSpec(sheets, bs, bindingId, groupIdOf, fetch, send, timestamp).result == Success(send(b, post.value))
  {
  }

  /** Publishing again after a successful publication reports the post as
      already sent, and writes nothing. */
  lemma PublishTwice(sheets: Sheets, bs: seq<Binding>, bindingId: string, groupIdOf: string -> string,
                     fetch: (string, int) -> Result<seq<Post>, string>,
                     send: (Binding, Post) -> SendReply, timestamp: string)
    requires NoEmptySheets(sheets)
    requires var first := PublishSpec(sheets, bs, bindingId, groupIdOf, fetch, send, timestamp);
      first.result.Success? && first.result.value.success
    ensures var first := PublishSpec(sheets, bs, bindingId, groupIdOf, fetch, send, timestamp);
      PublishSpec(first.sheets, bs, bindingId, groupIdOf, fetch, send, timestamp)
        == Published(Failure("❌ Пост уже был отправлен"), first.sheets)
  {
    PublishNeverResends(sheets, bs, bindingId, groupIdOf, fetch, send, timestamp);
    var b := FindBinding(bs, bindingId).value;
    var name := ExtractSheetName(b.vkGroupUrl).value;
    var posts := fetch(groupIdOf(b.vkGroupUrl), 1).value;
    var post := FirstPublishable(posts).value;
    FirstPublishableSpec(posts);
    SheetNameIsName(b.vkGroupUrl);
    var reply := send(b, post);
    var after := Marked(sheets, name, post.id, SendMeta(reply, post), timestamp);
    assert PublishSpec(sheets, bs, bindingId, groupIdOf, fetch, send, timestamp).sheets == after;
    MarkThenRecorded(sheets, name, post.id, SendMeta(reply, post), timestamp);
    PublishOnRecorded(after, bs, bindingId, groupIdOf, fetch, send, timestamp, b, posts, post);
  }

  lemma PublishOnRecorded(sheets: Sheets, bs: seq<Binding>, bindingId: string, groupIdOf: string -> string,
                          fetch: (string, int) -> Result<seq<Post>, string>,
                          send: (Binding, Post) -> SendReply, timestamp: string,
                          b: Binding, posts: seq<Post>, post: Post)
    requires FindBinding(bs, bindingId) == Some(b)
    requires groupIdOf(b.vkGroupUrl) != "" && ExtractSheetName(b.vkGroupUrl).Some?
    requires fetch(groupIdOf(b.vkGroupUrl), 1) == Success(posts)
    requires FirstPublishable(posts) == Some(post)
    requires Recorded(sheets, ExtractSheetName(b.vkGroupUrl).value, post.id)
    ensures PublishSpec(sheets, bs, bindingId, groupIdOf, fetch, send, timestamp)
      == Published(Failure("❌ Пост уже был отправлен"), sheets)
  {
  }
}
