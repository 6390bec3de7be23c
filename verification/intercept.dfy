/** `interceptScormSetValue` and the wrapper it installs.  The page's global
    scope is an explicit registry from names to callables; the 50 ms
    `setTimeout` becomes a queue of pending translations, appended to in call
    order. */
module Intercept {
  import opened Wrappers

  /** A callable stored under a global name: a host function (identified by
      `id`, returning `ret` to its caller), or the interceptor's wrapper around
      whatever was stored there before. */
  datatype Fn = Original(id: nat, ret: string) | Wrapped(inner: Fn)

  /** One run of a host function, with the arguments it received. */
  datatype Invocation = Invocation(fnId: nat, element: string, value: string)

  /** A translation waiting for its timer: the `(element, value)` pair. */
  datatype Pending = Pending(element: string, value: string)

  /** What one call produces: the value handed back to the caller (`None` is
      `undefined`), the host functions run, and the translations scheduled. */
  datatype CallOutcome = CallOutcome(returned: Option<string>, invoked: seq<Invocation>, scheduled: seq<Pending>)

  /** The host function at the bottom of a chain of wrappers. */
  function Innermost(f: Fn): (r: Fn)
    ensures r.Original?
  {
    match f
    case Original(_, _) => f
    case Wrapped(inner) => Innermost(inner)
  }

  /** How many wrappers are stacked on the host function. */
  function WrapDepth(f: Fn): nat
  {
    match f
    case Original(_, _) => 0
    case Wrapped(inner) => 1 + WrapDepth(inner)
  }

  /** Calling a registry entry with `(element, value)`.  A wrapper first runs
      what it wrapped with the same arguments, discards its result, then
      schedules one translation of the pair and returns `undefined`. */
  function Call(f: Fn, element: string, value: string): (r: CallOutcome)
    ensures r.invoked == [Invocation(Innermost(f).id, element, value)]
    ensures |r.scheduled| == WrapDepth(f)
    ensures forall i :: 0 <= i < |r.scheduled| ==> r.scheduled[i] == Pending(element, value)
    ensures f.Original? ==> r.returned == Some(f.ret)
    ensures f.Wrapped? ==> r.returned.None?
  {
    match f
    case Original(id, ret) => CallOutcome(Some(ret), [Invocation(id, element, value)], [])
    case Wrapped(inner) =>
      var before := Call(inner, element, value);
      CallOutcome(None, before.invoked, before.scheduled + [Pending(element, value)])
  }

  /** `interceptScormSetValue()`: when something is stored under `name`, wrap
      it and report success; otherwise leave the registry alone and report
      failure. */
  function Install(globals: map<string, Fn>, name: string): (r: (map<string, Fn>, bool))
    ensures r.1 <==> name in globals
    ensures r.0.Keys == globals.Keys
    ensures r.1 ==> r.0[name] == Wrapped(globals[name])
    ensures forall k :: k in globals && k != name ==> r.0[k] == globals[k]
    ensures !r.1 ==> r.0 == globals
  {
    if name in globals then (globals[name := Wrapped(globals[name])], true) else (globals, false)
  }

  /** After one installation over a host function, a call runs the host
      function exactly once with the same pair, schedules exactly one
      translation of that pair, and returns `undefined` whatever the host
      function returned. */
  lemma InstalledWrapperCall(globals: map<string, Fn>, name: string, element: string, value: string)
    requires name in globals && globals[name].Original?
    ensures var after := Install(globals, name).0;
            var out := Call(after[name], element, value);
            && out.invoked == [Invocation(globals[name].id, element, value)]
            && out.scheduled == [Pending(element, value)]
            && out.returned == None
  {
  }

  /** Installing again over an installed wrapper stacks a second wrapper, so
      each call then schedules the same translation twice. */
  lemma ReinstallDoublesTranslations(globals: map<string, Fn>, name: string, element: string, value: string)
    requires name in globals && globals[name].Original?
    ensures var twice := Install(Install(globals, name).0, name).0;
            var out := Call(twice[name], element, value);
            && out.invoked == [Invocation(globals[name].id, element, value)]
            && out.scheduled == [Pending(element, value), Pending(element, value)]
  {
    var twice := Install(Install(globals, name).0, name).0;
    assert twice[name] == Wrapped(Wrapped(globals[name]));
    assert WrapDepth(globals[name]) == 0;
    assert WrapDepth(Wrapped(globals[name])) == 1;
    var out := Call(twice[name], element, value);
    assert |out.scheduled| == 2;
  }

  /** The corrected wrapper: it runs what it wrapped with the same arguments
      and schedules one translation, like `Call`, but hands the wrapped
      function's result back to its caller instead of `undefined`. */
  function CallIntended(f: Fn, element: string, value: string): (r: CallOutcome)
    ensures r.returned == Some(Innermost(f).ret)
    ensures r.invoked == Call(f, element, value).invoked
    ensures r.scheduled == Call(f, element, value).scheduled
  {
    match f
    case Original(id, ret) => CallOutcome(Some(ret), [Invocation(id, element, value)], [])
    case Wrapped(inner) =>
      var before := CallIntended(inner, element, value);
      CallOutcome(before.returned, before.invoked, before.scheduled + [Pending(element, value)])
  }

  /** With the corrected wrapper installed, a caller of the global gets back
      exactly what the host function returns when called directly, while the
      same translation is still scheduled; the wrapper as written returns
      `undefined` instead. */
  lemma IntendedWrapperIsTransparent(globals: map<string, Fn>, name: string, element: string, value: string)
    requires name in globals && globals[name].Original?
    ensures var after := Install(globals, name).0;
            && CallIntended(after[name], element, value).returned == Call(globals[name], element, value).returned
            && CallIntended(after[name], element, value).scheduled == [Pending(element, value)]
            && Call(after[name], element, value).returned != Call(globals[name], element, value).returned
  {
  }
}
