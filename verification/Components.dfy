/**
 * agent/wordpress_components.py: replacing a plugin or a theme by renames, and putting the original back.
 *
 * A run has at most one fault; the renames that undo a step are assumed to succeed.
 */
module Components {
  import opened Text

  /** A directory, as a map from paths to contents. */
  type Content = map<seq<string>, string>

  datatype Kind = Plugin | Theme

  /** Entries of a plugins or themes directory: components, and one set aside under a random name. */
  datatype Name = Component(kind: Kind, slug: string) | Aside(kind: Kind, slug: string, id: nat)

  datatype Saved = Saved(kind: Kind, slug: string, content: Content)

  /** The version in a component's header, if it can be read. */
  type Header = (Content, Kind, string) -> Option<string>

  /** The step that fails. Fetching is the download, its extraction and the change of its owner. */
  datatype Fault =
    | NoFault
    | Saving
    | FlagOn
    | Fetching
    | MovingAway
    | MovingIn
    | Checking
    | CleaningUp
    | FlagOff

  datatype Outcome = Current | Updated | Failed

  class Site {
    var entries: map<Name, Content>
    var maintenance: bool
    var snapshots: map<string, Saved>

    /** _restore_saved: the saved content takes the component's name, or nothing changes. */
    method RestoreSaved(name: Name, saved: Content, id: nat, f: Fault) returns (ok: bool)
      requires name.Component? && Aside(name.kind, name.slug, id) !in entries
      modifies `entries
      ensures ok <==> f !in {Fetching, MovingIn} && (f == MovingAway ==> name !in old(entries))
      ensures entries == if ok then old(entries)[name := saved] else old(entries)
    {
      var aside := Aside(name.kind, name.slug, id);
      if f == Fetching {
        return false;
      }
      if name in entries {
        if f == MovingAway {
          return false;
        }
        entries := entries[aside := entries[name]] - {name};
      }
      if f == MovingIn {
        if aside in entries && name !in entries {
          entries := entries[name := entries[aside]] - {aside};
        }
        return false;
      }
      entries := entries[name := saved];
      entries := entries - {aside};
      return true;
    }

    /** The part of update_component between the two changes of the maintenance flag. */
    method Replace(name: Name, header: Header, latest: string, fetched: Option<Content>, id: nat, f: Fault)
      returns (ok: bool)
      requires name.Component? && name in entries && Aside(name.kind, name.slug, id) !in entries
      modifies `entries
      ensures ok <==> fetched.Some? && header(fetched.value, name.kind, name.slug) == Some(latest)
                      && f !in {Fetching, MovingAway, MovingIn, Checking, CleaningUp}
      ensures ok ==> entries == old(entries)[name := fetched.value]
      ensures !ok ==> Recoverable(entries, old(entries), name, id)
    {
      var aside := Aside(name.kind, name.slug, id);
      if fetched.None? || f in {Fetching, MovingAway} {
        return false;
      }
      entries := entries[aside := entries[name]] - {name};
      if f == MovingIn {
        return false;
      }
      entries := entries[name := fetched.value];
      if header(entries[name], name.kind, name.slug) != Some(latest) || f == Checking {
        entries := entries - {name};
        entries := entries[name := entries[aside]] - {aside};
        return false;
      }
      entries := entries - {aside};
      ok := f != CleaningUp;
    }

    /**
     * update_component. When it succeeds the component is the fetched one, with the version that was announced, and the
     * original is in the snapshot. When it fails every directory has its name and its content back, nothing is left set
     * aside, and there is no snapshot. The maintenance flag ends as it began, unless it is clearing it that fails.
     */
    method UpdateComponent(kind: Kind, slug: string, header: Header, latest: string, fetched: Option<Content>,
                           snapshot: string, id: nat, f: Fault)
      returns (r: Outcome)
      requires snapshot !in snapshots && forall n :: n in entries && n.Aside? ==> n.id != id
      modifies this
      ensures var name := Component(kind, slug);
              && (r.Current? <==> name in old(entries) && header(old(entries)[name], kind, slug) == Some(latest))
              && (r.Updated? <==> Updatable(old(entries), name, header, latest, fetched)
                                  && (f in {NoFault, FlagOff} || (f == FlagOn && old(maintenance))))
              && (r.Updated? ==>
                    && entries == old(entries)[name := fetched.value]
                    && snapshots == old(snapshots)[snapshot := Saved(kind, slug, old(entries)[name])])
              && (!r.Updated? ==> entries == old(entries) && snapshots == old(snapshots))
              && (maintenance == old(maintenance)
                  <==> old(maintenance) || f != FlagOff || name !in old(entries)
                       || header(old(entries)[name], kind, slug) in {None, Some(latest)})
    {
      var name := Component(kind, slug);
      if name !in entries || header(entries[name], kind, slug).None? {
        return Failed;
      }
      if header(entries[name], kind, slug) == Some(latest) {
        return Current;
      }
      if f == Saving {
        return Failed;
      }
      var saved := entries[name];
      snapshots := snapshots[snapshot := Saved(kind, slug, saved)];
      var wasOn := maintenance;
      var ok := wasOn || f != FlagOn;
      if !wasOn && f != FlagOn {
        maintenance := true;
      }
      if ok {
        ok := Replace(name, header, latest, fetched, id, f);
      }
      if !ok {
        PutBack(name, saved, id, old(entries));
        snapshots := snapshots - {snapshot};
      }
      if !wasOn && f != FlagOff {
        maintenance := false;
      }
      r := if ok then Updated else Failed;
    }

    /** The handler of update_component. */
    method PutBack(name: Name, saved: Content, id: nat, ghost before: map<Name, Content>)
      requires name.Component? && name in before && before[name] == saved
      requires Aside(name.kind, name.slug, id) !in before
      requires Recoverable(entries, before, name, id)
      modifies `entries
      ensures entries == before
    {
      var aside := Aside(name.kind, name.slug, id);
      BackAgain(entries, before, name, aside);
      if name in entries && aside !in entries {
        var ok := RestoreSaved(name, saved, id, NoFault);
      } else if aside in entries {
        entries := entries - {name};
        entries := entries[name := entries[aside]] - {aside};
      }
    }

    /** rollback_component: the saved content comes back, or nothing changes. */
    method RollbackComponent(snapshot: string, id: nat, f: Fault) returns (ok: bool)
      requires forall n :: n in entries && n.Aside? ==> n.id != id
      modifies `entries, `maintenance
      ensures ok ==> snapshot in snapshots
                     && var s := snapshots[snapshot]; entries == old(entries)[Component(s.kind, s.slug) := s.content]
      ensures !ok ==> entries == old(entries)
      ensures ok <==> snapshot in snapshots && f !in {Fetching, MovingIn} && (f == FlagOn ==> old(maintenance))
                      && (f == MovingAway ==> Component(snapshots[snapshot].kind, snapshots[snapshot].slug) !in old(entries))
      ensures maintenance == old(maintenance) <==> old(maintenance) || f != FlagOff || snapshot !in snapshots
    {
      if snapshot !in snapshots {
        return false;
      }
      var s := snapshots[snapshot];
      var wasOn := maintenance;
      ok := wasOn || f != FlagOn;
      if !wasOn && f != FlagOn {
        maintenance := true;
      }
      if ok {
        ok := RestoreSaved(Component(s.kind, s.slug), s.content, id, f);
      }
      if !wasOn && f != FlagOff {
        maintenance := false;
      }
    }

    /** An update is undone by rolling it back. */
    method UpdateAndRollBack(kind: Kind, slug: string, header: Header, latest: string, fetched: Option<Content>,
                             snapshot: string, id: nat, f: Fault)
      returns (r: Outcome)
      requires snapshot !in snapshots && forall n :: n in entries && n.Aside? ==> n.id != id
      modifies this
      ensures entries == old(entries)
    {
      r := UpdateComponent(kind, slug, header, latest, fetched, snapshot, id, f);
      if r.Updated? {
        var ok := RollbackComponent(snapshot, id, NoFault);
      }
    }
  }

  /**
   * Where the original can be at the handler: under the name of the component with nothing set aside (then the name may
   * have any content, the saved copy replaces it), or set aside.
   */
  ghost predicate Recoverable(now: map<Name, Content>, before: map<Name, Content>, name: Name, id: nat)
    requires name.Component? && name in before
  {
    var aside := Aside(name.kind, name.slug, id);
    && now - {name, aside} == before - {name, aside}
    && (aside in now ==> now[aside] == before[name])
    && (aside !in now ==> name in now)
  }

  lemma BackAgain(now: map<Name, Content>, before: map<Name, Content>, name: Name, aside: Name)
    requires name in before && aside !in before
    requires now - {name, aside} == before - {name, aside}
    ensures (now - {aside})[name := before[name]] == before
    ensures (now - {name})[name := before[name]] - {aside} == before
    ensures aside !in now ==> now[name := before[name]] == before
  {
    forall n | n != name && n != aside ensures (n in now <==> n in before) && (n in now ==> now[n] == before[n]) {
      assert n in now <==> n in now - {name, aside};
      assert n in before <==> n in before - {name, aside};
      assert n in now ==> now[n] == (now - {name, aside})[n];
      assert n in before ==> before[n] == (before - {name, aside})[n];
    }
  }

  /** An installed component of another version, and a fetched one of the announced version. */
  ghost predicate Updatable(before: map<Name, Content>, name: Name, header: Header, latest: string,
                            fetched: Option<Content>)
    requires name.Component?
  {
    && name in before && header(before[name], name.kind, name.slug) !in {None, Some(latest)}
    && fetched.Some? && header(fetched.value, name.kind, name.slug) == Some(latest)
  }
}
