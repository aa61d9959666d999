/** The directory URLs: `base()` and `keyURL(userID)`. `path.Join` is modelled
    as dropping empty elements and putting '/' between the rest; its final
    `Clean` step is not modelled (every element the gateway passes is already
    clean). */
module Paths {
  import opened Results
  import opened Text

  datatype Url = Url(scheme: string, host: string, path: string)

  /** The elements of `elems` that are not empty, in order. */
  function NonEmpty(elems: seq<string>): (kept: seq<string>)
    ensures forall i :: 0 <= i < |kept| ==> kept[i] != ""
    ensures (forall i :: 0 <= i < |elems| ==> elems[i] != "") ==> kept == elems
    ensures |elems| == 1 ==> kept == (if elems[0] == "" then [] else elems)
  {
    if elems == [] then []
    else (if elems[0] == "" then [] else [elems[0]]) + NonEmpty(elems[1..])
  }

  /** Filtering works element by element: an empty element is dropped
      wherever it stands and the others keep their order. */
  lemma {:induction false} NonEmptyAppend(a: seq<string>, b: seq<string>)
    ensures NonEmpty(a + b) == NonEmpty(a) + NonEmpty(b)
  {
    if a != [] {
      NonEmptyAppend(a[1..], b);
      assert (a + b)[1..] == a[1..] + b;
    } else {
      assert a + b == b;
    }
  }

  /** `path.Join` without `Clean`. */
  function Join(elems: seq<string>): string {
    JoinWith(NonEmpty(elems), "/")
  }

  /** `base()`: the API root of the directory host. */
  function Base(host: string): (u: Url)
    ensures u.scheme == "https" && u.host == host
    ensures u.path == "api/v4" && SplitSlash(u.path) == ["api", "v4"]
  {
    var u := Url("https", host, Join(["api", "v4"]));
    assert u.path == JoinWith(["api", "v4"], "/") == "api" + "/" + "v4";
    SplitJoin(["api", "v4"]);
    u
  }

  /** `keyURL(userID)`: where the key records of one user are listed. */
  function KeyURL(host: string, userID: int): (u: Url)
    ensures u.scheme == "https" && u.host == host
    ensures u.path == "api/v4/users/" + Itoa(userID) + "/gpg_keys"
    ensures SplitSlash(u.path) == ["api", "v4", "users", Itoa(userID), "gpg_keys"]
  {
    var b := Base(host);
    var u := b.(path := Join([b.path, "users", Itoa(userID), "gpg_keys"]));
    KeyPath(Itoa(userID));
    u
  }

  lemma KeyPath(id: string)
    requires id != "" && '/' !in id
    ensures Join(["api/v4", "users", id, "gpg_keys"]) == "api/v4/users/" + id + "/gpg_keys"
    ensures SplitSlash("api/v4/users/" + id + "/gpg_keys") == ["api", "v4", "users", id, "gpg_keys"]
  {
    var elems := ["api/v4", "users", id, "gpg_keys"];
    var segs := ["api", "v4", "users", id, "gpg_keys"];
    var p := "api/v4/users/" + id + "/gpg_keys";
    assert NonEmpty(elems) == elems by {
      assert forall i :: 0 <= i < |elems| ==> elems[i] != "";
    }
    JoinFour("api/v4", "users", id, "gpg_keys");
    assert Join(elems) == p by {
      assert "api/v4" + "/" + ("users" + "/" + (id + "/" + "gpg_keys")) == p;
    }
    assert JoinWith(segs, "/") == p by {
      assert segs[1..] == ["v4", "users", id, "gpg_keys"];
      JoinFour("v4", "users", id, "gpg_keys");
      assert "api" + "/" + ("v4" + "/" + ("users" + "/" + (id + "/" + "gpg_keys"))) == p;
    }
    SplitJoin(segs);
  }

  lemma JoinFour(a: string, b: string, c: string, d: string)
    ensures JoinWith([a, b, c, d], "/") == a + "/" + b + "/" + c + "/" + d
  {
    assert [c, d][1..] == [d];
    assert JoinWith([c, d], "/") == c + "/" + d;
    assert [b, c, d][1..] == [c, d];
    assert JoinWith([b, c, d], "/") == b + "/" + (c + "/" + d);
    assert [a, b, c, d][1..] == [b, c, d];
    assert JoinWith([a, b, c, d], "/") == a + "/" + (b + "/" + (c + "/" + d));
  }

  /** The user whose key listing `path` names, read back from the path. */
  function KeyListingUser(path: string): Option<int> {
    var parts := SplitSlash(path);
    if |parts| == 5 && parts[0] == "api" && parts[1] == "v4" && parts[2] == "users" && parts[4] == "gpg_keys"
    then ParseInt(parts[3])
    else None
  }

  /** The key-listing URL names exactly the user it was built for. */
  lemma KeyURLNamesUser(host: string, userID: int)
    ensures KeyListingUser(KeyURL(host, userID).path) == Some(userID)
  {
    ItoaRoundTrip(userID);
  }

  lemma KeyURLInjective(host: string, a: int, b: int)
    requires KeyURL(host, a) == KeyURL(host, b)
    ensures a == b
  {
    KeyURLNamesUser(host, a);
    KeyURLNamesUser(host, b);
  }
}
