/** The group bindings the server returns from `getBindingsWithNames`: a VK
    group paired with a Telegram chat, and the lookups the client does on
    them. */
module Bindings {
  import opened Wrappers

  /** One binding.  `vkGroupUrlSnake` is the `vk_group_url` spelling some
      records carry; `syncPostsCount` is the `formatSettings.syncPostsCount`
      setting, 0 when it is missing. */
  datatype Binding = Binding(
    id: string,
    vkGroupUrl: string,
    vkGroupUrlSnake: string,
    status: string,
    syncPostsCount: int)

  /** `binding.vkGroupUrl || binding.vk_group_url` */
  function GroupUrlOf(b: Binding): (u: string)
    ensures u == "" <==> b.vkGroupUrl == "" && b.vkGroupUrlSnake == ""
  {
    if b.vkGroupUrl != "" then b.vkGroupUrl else b.vkGroupUrlSnake
  }

  predicate IsActive(b: Binding)
  {
    b.status == "active"
  }

  /** `bindings.filter(b => b.status === "active")` */
  function ActiveOnly(bs: seq<Binding>): (r: seq<Binding>)
    ensures |r| <= |bs|
    ensures forall k :: 0 <= k < |r| ==> IsActive(r[k])
  {
    if bs == [] then []
    else (if IsActive(bs[0]) then [bs[0]] else []) + ActiveOnly(bs[1..])
  }

  /** `bindings.find(b => b.id === id)` */
  function FindBinding(bs: seq<Binding>, id: string): (r: Option<Binding>)
    ensures r.Some? ==> r.value.id == id
  {
    if bs == [] then None
    else if bs[0].id == id then Some(bs[0])
    else FindBinding(bs[1..], id)
  }

  /** The filter keeps exactly the active bindings. */
  lemma {:induction false} ActiveOnlySpec(bs: seq<Binding>)
    ensures forall b :: b in ActiveOnly(bs) <==> b in bs && IsActive(b)
    ensures |ActiveOnly(bs)| <= |bs|
  {
    if bs != [] {
      ActiveOnlySpec(bs[1..]);
      assert forall b :: b in bs <==> b == bs[0] || b in bs[1..];
    }
  }

  /** The filter works binding by binding: filtering a + b is filtering
      a, then b, so the active bindings keep their order and repetitions. */
  lemma {:induction false} ActiveOnlyAppend(a: seq<Binding>, b: seq<Binding>)
    ensures ActiveOnly(a + b) == ActiveOnly(a) + ActiveOnly(b)
  {
    if a == [] {
      assert a + b == b;
    } else {
      assert (a + b)[0] == a[0];
      assert (a + b)[1..] == a[1..] + b;
      ActiveOnlyAppend(a[1..], b);
    }
  }

  /** One binding is kept exactly when it is active. */
  lemma ActiveOnlySingle(x: Binding)
    ensures ActiveOnly([x]) == if IsActive(x) then [x] else []
  {
    assert [x][1..] == [];
  }

  /** The lookup returns the first binding with the id, and nothing when
      no binding has it. */
  lemma {:induction false} FindBindingSpec(bs: seq<Binding>, id: string)
    ensures FindBinding(bs, id).Some? ==>
      exists i :: 0 <= i < |bs| && bs[i] == FindBinding(bs, id).value && bs[i].id == id
        && forall j :: 0 <= j < i ==> bs[j].id != id
    ensures FindBinding(bs, id).None? <==> forall j :: 0 <= j < |bs| ==> bs[j].id != id
  {
    if bs != [] && bs[0].id != id {
      FindBindingSpec(bs[1..], id);
      if FindBinding(bs, id).Some? {
        var i :| 0 <= i < |bs[1..]| && bs[1..][i] == FindBinding(bs, id).value && bs[1..][i].id == id
          && forall j :: 0 <= j < i ==> bs[1..][j].id != id;
        assert bs[i + 1] == bs[1..][i];
        assert forall j :: 1 <= j < i + 1 ==> bs[j] == bs[1..][j - 1];
      }
      assert forall j :: 1 <= j < |bs| ==> bs[j] == bs[1..][j - 1];
    } else if bs != [] {
      assert bs[0].id == id;
    }
  }
}
