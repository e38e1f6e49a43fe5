/** The credential files as they are changed on disk, one write at a time. */
module CredentialFileStore {
  import opened Collections
  import opened CredentialFiles

  class FileStore {
    const profile: string
    const oldPath: OldPath
    var current: Option<File>
    var legacy: Option<File>
    var clock: nat
    /** The password written last. */
    ghost var last: string

    ghost function View(): Files
      reads this
    {
      Files(profile, oldPath, current, legacy, clock)
    }

    ghost predicate Valid()
      reads this
    {
      Holds(View(), last)
    }

    constructor (profile: string, oldPath: OldPath)
      requires profile != ""
      ensures Valid() && last == "" && View() == Files(profile, oldPath, None, None, 0)
    {
      this.profile, this.oldPath := profile, oldPath;
      current, legacy, clock, last := None, None, 0, "";
    }

    /** Decrypts rather than just reading: a file this profile cannot decrypt is another's. */
    method ReadLegacy() returns (password: string, usedDerivableKey: bool)
      ensures password == (if oldPath.Separate? then Decrypt(legacy, profile) else "")
      ensures password != "" ==> legacy.Some? && usedDerivableKey == legacy.value.derivable
    {
      password, usedDerivableKey := "", false;
      if oldPath.Separate? && legacy.Some? && legacy.value.owner == profile {
        password, usedDerivableKey := legacy.value.password, legacy.value.derivable;
      }
    }

    method WriteToCurrent(password: string, later: nat)
      modifies this`current, this`clock
      ensures View() == WriteCurrent(old(View()), password, later)
    {
      clock := clock + later;
      current := Some(File(profile, false, password, clock));
    }

    method WriteToLegacy(password: string, later: nat)
      modifies this`legacy, this`clock
      ensures View() == WriteLegacy(old(View()), password, later)
    {
      clock := clock + later;
      legacy := Some(File(profile, false, password, clock));
    }

    method RefreshLegacy(password: string, later: nat)
      modifies this`legacy, this`clock
      ensures View() == Refresh(old(View()), password, later)
    {
      var existing, _ := ReadLegacy();
      if existing == "" {
        return;
      }
      if password == "" {
        legacy := None;
      } else {
        WriteToLegacy(password, later);
      }
    }

    /** Only after the current file is committed is the older copy brought in step. */
    method StorePassword(password: string, later: nat, later': nat)
      requires Valid()
      modifies this
      ensures Valid() && last == password && View() == StoreToFile(old(View()), password, later, later')
    {
      StoreHolds(View(), last, password, later, later');
      WriteToCurrent(password, later);
      RefreshLegacy(password, later');
      last := password;
    }

    /** The password written last, whichever of the two copies has it. */
    method RetrievePassword(later: nat, later': nat) returns (password: string)
      requires Valid()
      modifies this
      ensures Valid() && password == last == old(last)
      ensures (View(), password) == Retrieve(old(View()), later, later')
    {
      RetrieveHolds(View(), last, later, later');
      if oldPath.Separate? && legacy.Some? && (current.None? || legacy.value.written > current.value.written) {
        var migrated, usedDerivableKey := ReadLegacy();
        if migrated != "" {
          if usedDerivableKey {
            WriteToLegacy(migrated, later);
          }
          WriteToCurrent(migrated, later');
          return migrated;
        }
      }
      if current.None? || current.value.password == "" {
        return "";
      }
      if current.value.owner != profile {
        return "";
      }
      password := current.value.password;
      if current.value.derivable {
        WriteToCurrent(password, later);
        RefreshLegacy(password, later');
      }
    }

    method RemovePassword()
      requires Valid()
      modifies this
      ensures Valid() && last == "" && View() == RemoveFromFile(old(View()))
    {
      RemoveHolds(View(), last);
      var existing, _ := ReadLegacy();
      if existing != "" {
        legacy := None;
      }
      current := None;
      last := "";
    }
  }
}
