/**
  The admin pages' toast listener: a `toast` parameter in the URL shows its message once, and
  is then removed from the URL.
 */
module AdminToast {
  import opened Wrappers
  import opened QueryParams

  datatype ToastKind = Success | Error
  /** A toast to show; `message` is `None` when the config object has no `message`, so the toast
      is shown with `undefined`. */
  datatype Toast = Toast(kind: ToastKind, message: Option<string>)

  /** `TOAST_MESSAGES`'s own entries. */
  const Messages: map<string, Toast> := map[
    "created" := Toast(Success, Some("Product created.")),
    "updated" := Toast(Success, Some("Product updated.")),
    "deleted" := Toast(Success, Some("Product deleted."))]

  /** The members every object literal inherits from `Object.prototype`; each is a function or, for
      `__proto__`, an object, so `TOAST_MESSAGES[key]` is truthy for them too. */
  const Inherited: set<string> := {
    "constructor", "hasOwnProperty", "isPrototypeOf", "propertyIsEnumerable", "toLocaleString",
    "toString", "valueOf", "__proto__", "__defineGetter__", "__defineSetter__",
    "__lookupGetter__", "__lookupSetter__"}

  /** The toast for a `toast` value: its own entry, or for an inherited member a config without
      `type` and `message`, which takes the `toast.error` branch with an undefined message. */
  function ToastFor(key: string): (r: Option<Toast>)
    ensures r.Some? <==> key in {"created", "updated", "deleted"} || key in Inherited
    ensures r.Some? && r.value.kind == Success <==> key in {"created", "updated", "deleted"}
    ensures r.Some? ==> (r.value.message.Some? <==> r.value.kind == Success)
    ensures r.Some? && r.value.kind == Success ==> r.value.message == Some("Product " + key + ".")
  {
    assert "Product " + "created" + "." == "Product created.";
    assert "Product " + "updated" + "." == "Product updated.";
    assert "Product " + "deleted" + "." == "Product deleted.";
    if key in Messages then Some(Messages[key])
    else if key in Inherited then Some(Toast(Error, None))
    else None
  }

  /** What one run of the effect does: the key it remembers, the toast it shows, and the query
      and target it navigates to. */
  datatype Reaction = Reaction(lastKey: Option<string>, shown: Option<Toast>, next: Option<seq<Pair>>, target: Option<string>)

  /** The effect for the current query: nothing without a non-empty `toast`, nothing for the key
      handled last, otherwise remember the key, show its toast if it has one, and drop `toast`. */
  function React(lastKey: Option<string>, ps: seq<Pair>, pathname: string): Reaction {
    var key := Lookup(ps, "toast");
    if key.None? || key.value == "" then Reaction(lastKey, None, None, None)
    else if lastKey == key then Reaction(lastKey, None, None, None)
    else
      var next := Deleted(ps, "toast");
      Reaction(key, ToastFor(key.value), Some(next), Some(Target(pathname, next)))
  }

  class Listener {
    /** `lastKeyRef.current`. */
    var lastKey: Option<string>

    constructor ()
      ensures lastKey == None
    {
      lastKey := None;
    }

    method OnParams(ps: seq<Pair>, pathname: string) returns (shown: Option<Toast>, target: Option<string>)
      modifies this
      ensures var r := React(old(lastKey), ps, pathname);
              lastKey == r.lastKey && shown == r.shown && target == r.target
    {
      var key := Lookup(ps, "toast");
      if key.None? || key.value == "" {
        return None, None;
      }
      if lastKey == key {
        return None, None;
      }
      lastKey := key;
      shown := ToastFor(key.value);
      var params := new SearchParams(ps);
      params.Delete("toast");
      var qs := params.ToString();
      target := Some(if qs != "" then pathname + "?" + qs else pathname);
    }
  }

  /** A new key is handled: it is remembered, its toast (if any) is shown, and the navigation
      drops `toast` and keeps every other parameter; the same query again does nothing. */
  lemma HandledOnceInARow(lastKey: Option<string>, ps: seq<Pair>, pathname: string, other: string)
    requires Lookup(ps, "toast").Some? && Lookup(ps, "toast").value != "" && lastKey != Lookup(ps, "toast")
    ensures var r := React(lastKey, ps, pathname);
            && r.lastKey == Lookup(ps, "toast")
            && r.shown == ToastFor(Lookup(ps, "toast").value)
            && r.next.Some? && Lookup(r.next.value, "toast") == None
            && (other != "toast" ==> Only(r.next.value, other) == Only(ps, other))
            && r.target == Some(Target(pathname, r.next.value))
    ensures var again := React(React(lastKey, ps, pathname).lastKey, ps, pathname);
            again.shown.None? && again.target.None?
  {
    LookupAfterEdits(ps, "toast", "", other);
    OnlyAfterDelete(ps, "toast", other);
  }

  /** Without a `toast` value the listener neither shows nor navigates, and remembers nothing new. */
  lemma NoToastNoAction(lastKey: Option<string>, ps: seq<Pair>, pathname: string)
    requires Lookup(ps, "toast").GetOr("") == ""
    ensures React(lastKey, ps, pathname) == Reaction(lastKey, None, None, None)
  {
  }
}
