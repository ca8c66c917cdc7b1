/**
 * The inspector registry and the policy list of the approval controller.
 *
 * The registry is a name -> inspector map that plugins fill at start-up; the
 * policy is an ordered list of named, configured inspectors that grows by one
 * element per `Set` call (one `name` or `name=config` token each) and renders
 * back to its textual form.
 */
module Inspectors {
  import opened Wrappers
  import opened Strings

  /**
   * An inspector instance as an opaque identity. `Nil` stands for Go's nil
   * interface value; what an instance does when it inspects a request is not
   * part of this model.
   */
  datatype Inspector = Nil | Instance(id: nat)

  /** One element of a policy: the token's name and configuration, and the configured instance. */
  datatype NamedInspector = NamedInspector(name: string, config: string, inspector: Inspector)

  /** Errors `Set` reports: an unknown name (with the names that are registered), or whatever `Configure` returned. */
  datatype Error =
    | NotFound(name: string, registered: set<string>)
    | ConfigureFailed(message: string)

  /** Why `Register` panicked. */
  datatype PanicReason = EmptyName | NilInspector | Duplicate(name: string)

  /** A successful registration, or the panic that aborted it before anything was written. */
  datatype RegisterOutcome = Registered | Panic(reason: PanicReason)

  /**
   * An inspector's `Configure` operation: given the registered instance and a
   * configuration string, a new configured instance or an error. It is left
   * uninterpreted, a parameter of the operations that call it.
   */
  type Configure = (Inspector, string) -> Result<Inspector, Error>

  /** The package-level registry of inspectors. */
  class Registry {
    var inspectors: map<string, Inspector>

    /** Every key was lower-cased on registration, so it is non-empty and lower-case, and no value is nil. */
    ghost predicate Valid()
      reads this
    {
      forall name :: name in inspectors ==> name != "" && IsLower(name) && inspectors[name] != Nil
    }

    constructor ()
      ensures Valid() && inspectors == map[]
    {
      inspectors := map[];
    }

    /**
     * Stores `a` under the lower-cased `name`. An empty name, a nil instance
     * and a name already taken (in any casing) panic, in that order of checks,
     * and leave the registry as it was.
     */
    method Register(name: string, a: Inspector) returns (outcome: RegisterOutcome)
      requires Valid()
      modifies this
      ensures Valid()
      ensures name == "" ==> outcome == Panic(EmptyName)
      ensures name != "" && a == Nil ==> outcome == Panic(NilInspector)
      ensures name != "" && a != Nil && ToLower(name) in old(inspectors) ==> outcome == Panic(Duplicate(ToLower(name)))
      ensures outcome.Panic? ==> inspectors == old(inspectors)
      ensures outcome == Registered <==> name != "" && a != Nil && ToLower(name) !in old(inspectors)
      ensures outcome == Registered ==> inspectors == old(inspectors)[ToLower(name) := a]
    {
      if name == "" {
        return Panic(EmptyName);
      }
      if a == Nil {
        return Panic(NilInspector);
      }
      var key := ToLower(name);
      if key in inspectors {
        return Panic(Duplicate(key));
      }
      inspectors := inspectors[key := a];
      outcome := Registered;
    }

    /** The registered names, each exactly once, in no particular order. */
    method List() returns (names: seq<string>)
      ensures |names| == |inspectors|
      ensures forall name :: name in names <==> name in inspectors
      ensures forall i, j :: 0 <= i < j < |names| ==> names[i] != names[j]
    {
      names := [];
      var rest := inspectors.Keys;
      while rest != {}
        invariant rest <= inspectors.Keys
        invariant forall name :: name in names <==> name in inspectors && name !in rest
        invariant forall i, j :: 0 <= i < j < |names| ==> names[i] != names[j]
        invariant |names| + |rest| == |inspectors.Keys|
        decreases |rest|
      {
        var name :| name in rest;
        names := names + [name];
        rest := rest - {name};
      }
      assert |inspectors.Keys| == |inspectors|;
    }

    /** Removes exactly the key `name`, as given (not lower-cased); an absent key changes nothing. */
    method Unregister(name: string)
      requires Valid()
      modifies this
      ensures Valid()
      ensures inspectors == old(inspectors) - {name}
      ensures name !in old(inspectors) ==> inspectors == old(inspectors)
    {
      inspectors := inspectors - {name};
    }

    /**
     * Exact lookup of `name`, which is not lower-cased: a name with an upper-case
     * letter is never found in a valid registry. An absent name yields nil.
     */
    method Get(name: string) returns (a: Inspector, found: bool)
      ensures found <==> name in inspectors
      ensures found ==> a == inspectors[name]
      ensures !found ==> a == Nil
      ensures Valid() && !IsLower(name) ==> !found
    {
      found := name in inspectors;
      a := if found then inspectors[name] else Nil;
    }
  }

  /**
   * After `Register(name, a)` succeeds, a later registration of `other` hits
   * the duplicate check exactly when `other` was already taken or equals
   * `name` up to ASCII case: registering `"A"` and then `"a"` panics.
   */
  lemma RegisteredInAnyCasing(registered: map<string, Inspector>, name: string, a: Inspector, other: string)
    ensures ToLower(other) in registered[ToLower(name) := a] <==> ToLower(other) in registered || EqualFoldAscii(name, other)
  {
    ToLowerSameIffEqualFold(name, other);
  }

  /**
   * What one `Set(value)` call resolves to against the registered inspectors:
   * the token is split at its first `=`; the name must be registered; a
   * non-empty configuration is passed to the instance's `Configure`, whose
   * error is returned as it is.
   */
  function Resolve(registered: map<string, Inspector>, configure: Configure, value: string): Result<NamedInspector, Error> {
    var split := SplitFirst(value, '=');
    var name := split[0];
    if name !in registered then Failure(NotFound(name, registered.Keys))
    else
      var config := if |split| > 1 then split[1] else "";
      if config == "" then Success(NamedInspector(name, config, registered[name]))
      else
        match configure(registered[name], split[1])
        case Failure(e) => Failure(e)
        case Success(configured) => Success(NamedInspector(name, config, configured))
  }

  /** The textual form of one element: `name`, or `name=config` when the configuration is not empty. */
  function Token(e: NamedInspector): string {
    if e.config == "" then e.name else e.name + "=" + e.config
  }

  /** The textual form of a policy: the elements' tokens separated by commas. */
  function Render(items: seq<NamedInspector>): string {
    if items == [] then ""
    else if |items| == 1 then Token(items[0])
    else Render(items[..|items| - 1]) + "," + Token(items[|items| - 1])
  }

  /**
   * A resolved token names the text before its first `=` and configures with
   * the rest, which may hold further `=`; the instance is the registered one
   * unless the configuration is non-empty, and `Configure` decided then.
   */
  lemma ResolveSplitsAtFirstEquals(registered: map<string, Inspector>, configure: Configure, value: string, e: NamedInspector)
    requires Resolve(registered, configure, value) == Success(e)
    ensures '=' !in e.name && e.name in registered
    ensures '=' in value ==> value == e.name + "=" + e.config
    ensures '=' !in value ==> value == e.name && e.config == ""
    ensures e.config == "" ==> e.inspector == registered[e.name]
    ensures e.config != "" ==> configure(registered[e.name], e.config) == Success(e.inspector)
  {
  }

  /** `Set` fails exactly when the name before the first `=` is unregistered or `Configure` rejects a non-empty configuration. */
  lemma ResolveFails(registered: map<string, Inspector>, configure: Configure, name: string, config: string)
    requires '=' !in name
    ensures var r := Resolve(registered, configure, name + "=" + config);
      r.Failure? <==> name !in registered || (config != "" && configure(registered[name], config).Failure?)
    ensures name !in registered ==> Resolve(registered, configure, name + "=" + config) == Failure(NotFound(name, registered.Keys))
  {
    SplitFirstOfJoined(name, '=', config);
  }

  /** A plain `name` token (no `=`) fails exactly when the name is unregistered, and otherwise resolves to the registered instance with no configuration. */
  lemma ResolvePlainName(registered: map<string, Inspector>, configure: Configure, value: string)
    requires '=' !in value
    ensures Resolve(registered, configure, value).Failure? <==> value !in registered
    ensures value !in registered ==> Resolve(registered, configure, value) == Failure(NotFound(value, registered.Keys))
    ensures value in registered ==> Resolve(registered, configure, value) == Success(NamedInspector(value, "", registered[value]))
  {
  }

  /** A token that resolved renders back to itself unless it ended in a bare `=` (`name=`), which renders as `name`. */
  lemma {:induction false} TokenOfResolved(registered: map<string, Inspector>, configure: Configure, value: string, e: NamedInspector)
    requires Resolve(registered, configure, value) == Success(e)
    ensures Token(e) == value || (e.config == "" && value == e.name + "=")
  {
    ResolveSplitsAtFirstEquals(registered, configure, value, e);
  }

  /** Rendering an element and resolving the text again gives back the same element (name, configuration and instance). */
  lemma {:induction false} ResolveOfToken(registered: map<string, Inspector>, configure: Configure, value: string, e: NamedInspector)
    requires Resolve(registered, configure, value) == Success(e)
    ensures Resolve(registered, configure, Token(e)) == Success(e)
  {
    ResolveSplitsAtFirstEquals(registered, configure, value, e);
    if e.config != "" {
      SplitFirstOfJoined(e.name, '=', e.config);
    }
  }

  /** Rendering a policy joins the elements' tokens with commas. */
  lemma {:induction false} RenderIsJoinOfTokens(items: seq<NamedInspector>, tokens: seq<string>)
    requires |tokens| == |items|
    requires forall i :: 0 <= i < |items| ==> Token(items[i]) == tokens[i]
    ensures Render(items) == Join(tokens, ',')
  {
    if |items| > 1 {
      var n := |items| - 1;
      RenderIsJoinOfTokens(items[..n], tokens[..n]);
    }
  }

  /**
   * A policy built from tokens, none of which ends in a bare `=`, renders as
   * those tokens joined by commas.
   */
  lemma RenderOfResolved(registered: map<string, Inspector>, configure: Configure, tokens: seq<string>, items: seq<NamedInspector>)
    requires |tokens| == |items|
    requires forall i :: 0 <= i < |items| ==> Resolve(registered, configure, tokens[i]) == Success(items[i])
    requires forall i :: 0 <= i < |items| ==> '=' !in tokens[i] || items[i].config != ""
    ensures Render(items) == Join(tokens, ',')
  {
    forall i | 0 <= i < |items|
      ensures Token(items[i]) == tokens[i]
    {
      TokenOfResolved(registered, configure, tokens[i], items[i]);
    }
    RenderIsJoinOfTokens(items, tokens);
  }

  /** A policy: the ordered list of named inspectors that command-line tokens build, one per `Set`. */
  class Policy {
    var items: seq<NamedInspector>

    constructor ()
      ensures items == []
    {
      items := [];
    }

    /**
     * Parses ONE token (commas are not split here) and, on success, appends
     * exactly one element; on failure the list is unchanged and the error
     * is returned.
     */
    method Set(registry: Registry, configure: Configure, value: string) returns (err: Option<Error>)
      requires registry.Valid()
      modifies this
      ensures var r := Resolve(registry.inspectors, configure, value);
        && (r.Success? ==> err == None && items == old(items) + [r.value])
        && (r.Failure? ==> err == Some(r.error) && items == old(items))
    {
      var split := SplitFirst(value, '=');
      var name := split[0];
      var inspector, found := registry.Get(name);
      if !found {
        var names := registry.List();
        assert (set n | n in names) == registry.inspectors.Keys;
        return Some(NotFound(name, set n | n in names));
      }
      var config := "";
      if |split| > 1 {
        config := split[1];
      }
      if config != "" {
        var configured := configure(inspector, split[1]);
        if configured.Failure? {
          return Some(configured.error);
        }
        inspector := configured.value;
      }
      items := items + [NamedInspector(name, config, inspector)];
      err := None;
    }

    /** The policy's textual form: each element as `name` or `name=config`, separated by commas. */
    method String() returns (s: string)
      ensures s == Render(items)
    {
      s := "";
      for idx := 0 to |items|
        invariant s == Render(items[..idx])
      {
        if idx > 0 {
          s := s + ",";
        }
        s := s + items[idx].name;
        if items[idx].config != "" {
          s := s + "=";
          s := s + items[idx].config;
        }
        assert items[..idx + 1][..idx] == items[..idx];
      }
      assert items[..|items|] == items;
    }
  }
}
