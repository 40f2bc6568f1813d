/** The application shell (App.tsx): one profile kept in component state and
    mirrored in the browser's local storage under one key, loaded at start-up,
    brought up to date by the daily streak rule, and replaced by the login,
    level, experience and logout handlers. Days are integer day numbers. */
module App {
  import opened Outcomes
  import opened Text
  import opened Types

  /** The local-storage key of the saved profile. */
  const ProfileKey := "mathpech_profile"

  /** The badge every new profile starts with. */
  const WelcomeBadge := "Bienvenue"

  /** What a local-storage entry can hold, as far as start-up is concerned:
      a serialised profile; text that is empty or parses to a falsy value
      (`null`, `false`, `0`, `""`); or text on which `JSON.parse` throws. */
  datatype Stored = Encoded(profile: UserProfile) | FalsyJson | Malformed

  /** The outcome of the state initialiser: a profile or none, or an
      exception thrown while rendering, which leaves nothing on screen. */
  datatype Startup = Loaded(profile: Option<UserProfile>) | Crashed

  /** `saved ? JSON.parse(saved) : null`. */
  function Load(storage: map<string, Stored>): (r: Startup)
    ensures r.Crashed? <==> ProfileKey in storage && storage[ProfileKey].Malformed?
    ensures r.Loaded? && r.profile.Some? <==> ProfileKey in storage && storage[ProfileKey].Encoded?
    ensures r.Loaded? && r.profile.Some? ==> r.profile.value == storage[ProfileKey].profile
  {
    if ProfileKey !in storage then Loaded(None)
    else
      match storage[ProfileKey]
      case Encoded(p) => Loaded(Some(p))
      case FalsyJson => Loaded(None)
      case Malformed => Crashed
  }

  /** A profile written under the key is the one read back at the next
      start-up. */
  lemma LoadAfterSave(storage: map<string, Stored>, p: UserProfile)
    ensures Load(storage[ProfileKey := Encoded(p)]) == Loaded(Some(p))
  {
  }

  /** Once the key is removed, the next start-up finds no profile. */
  lemma LoadAfterRemove(storage: map<string, Stored>)
    ensures Load(storage - {ProfileKey}) == Loaded(None)
  {
  }

  /** Entries under other keys play no part in start-up. */
  lemma LoadIgnoresOtherKeys(storage: map<string, Stored>, k: string, v: Stored)
    requires k != ProfileKey
    ensures Load(storage[k := v]) == Load(storage)
  {
  }

  // ---------------------------------------------------------------------
  // The streak rule

  /** The streak after a visit on day `today`, given the last active day,
      when that day is not `today`: one more after a visit yesterday, else a
      fresh streak of 1 (also when there is no last active day). */
  function NextStreak(streak: int, lastActive: Option<int>, today: int): int
  {
    if lastActive == Some(today - 1) then streak + 1 else 1
  }

  /** The mount effect on a loaded profile: untouched if it was last active
      today, otherwise its streak advanced and its last active day set to
      today. */
  function StreakUpdate(p: UserProfile, today: int): (r: UserProfile)
    ensures r.lastActiveDate == Some(today)
    ensures r.(streak := p.streak, lastActiveDate := p.lastActiveDate) == p
  {
    if p.lastActiveDate == Some(today) then p
    else p.(streak := NextStreak(p.streak, p.lastActiveDate, today), lastActiveDate := Some(today))
  }

  /** The four cases of the rule. */
  lemma StreakCases(p: UserProfile, today: int)
    ensures p.lastActiveDate == Some(today) ==> StreakUpdate(p, today) == p
    ensures p.lastActiveDate == Some(today - 1) ==> StreakUpdate(p, today).streak == p.streak + 1
    ensures p.lastActiveDate.None? ==> StreakUpdate(p, today).streak == 1
    ensures p.lastActiveDate.Some? && p.lastActiveDate.value != today && p.lastActiveDate.value != today - 1 ==>
              StreakUpdate(p, today).streak == 1
  {
  }

  /** Opening the app twice on one day counts once. */
  lemma StreakUpdateIdempotent(p: UserProfile, today: int)
    ensures StreakUpdate(StreakUpdate(p, today), today) == StreakUpdate(p, today)
  {
  }

  /** Opening the app on `n` consecutive days after day `today` adds `n` to
      the streak reached on day `today`. */
  lemma {:induction false} ConsecutiveDays(p: UserProfile, today: int, n: nat)
    ensures DailyVisits(StreakUpdate(p, today), today + 1, n).streak == StreakUpdate(p, today).streak + n
    ensures DailyVisits(StreakUpdate(p, today), today + 1, n).lastActiveDate == Some(today + n)
  {
    if n > 0 {
      ConsecutiveDays(p, today, n - 1);
    }
  }

  /** The profile after visits on `n` consecutive days starting at `first`. */
  function DailyVisits(p: UserProfile, first: int, n: nat): (r: UserProfile)
    ensures n > 0 ==> r.lastActiveDate == Some(first + n - 1)
  {
    if n == 0 then p else StreakUpdate(DailyVisits(p, first, n - 1), first + n - 1)
  }

  /** Missing a day resets the streak to 1, however long it was. */
  lemma MissedDayResets(p: UserProfile, today: int, gap: int)
    requires gap >= 2
    ensures StreakUpdate(StreakUpdate(p, today), today + gap).streak == 1
  {
  }

  // ---------------------------------------------------------------------
  // Login

  /** The four subjects every new profile starts with, at 50. */
  const StartingStrengths: seq<Strength> := [
    Strength("Algèbre", 50), Strength("Géométrie", 50),
    Strength("Probabilités", 50), Strength("Statistiques", 50)]

  /** `handleLogin`'s fresh profile for `email` at `level` on day `today`. */
  function NewProfile(email: string, level: Level, today: int): (r: UserProfile)
    ensures r.email == email && r.level == level
    // the name is the part of the address before its first `@`
    ensures StartsWith(email, r.name) && '@' !in r.name
    ensures '@' in email ==> |r.name| < |email| && email[|r.name|] == '@'
    ensures '@' !in email ==> r.name == email
    ensures r.xp == 0 && r.streak == 1 && r.lastActiveDate == Some(today)
    ensures r.badges == [WelcomeBadge] && r.strengths == StartingStrengths
  {
    UserProfile(email, FirstField(email, '@'), level, 0, 1, Some(today), [WelcomeBadge], StartingStrengths)
  }

  /** The name of `user@host` is `user` when `user` has no `@`. */
  lemma NewProfileName(user: string, host: string, level: Level, today: int)
    requires '@' !in user
    ensures NewProfile(user + "@" + host, level, today).name == user
  {
    var email := user + "@" + host;
    var name := NewProfile(email, level, today).name;
    assert email[|user|] == '@';
    assert forall i :: 0 <= i < |user| ==> email[i] == user[i];
    assert forall i :: 0 <= i < |name| ==> name[i] == email[i];
  }

  /** A new profile is already up to date for the day it is made. */
  lemma NewProfileNeedsNoStreakUpdate(email: string, level: Level, today: int)
    ensures StreakUpdate(NewProfile(email, level, today), today) == NewProfile(email, level, today)
  {
  }

  // ---------------------------------------------------------------------
  // The component

  class AppState {
    /** The browser's local storage. */
    var storage: map<string, Stored>
    var profile: Option<UserProfile>
    /** The state initialiser threw: nothing is rendered and no handler runs. */
    var crashed: bool

    /** Every profile held is also the one saved (the persist effect). */
    ghost predicate Valid()
      reads this
    {
      && (crashed ==> profile.None?)
      && (profile.Some? ==> ProfileKey in storage && storage[ProfileKey] == Encoded(profile.value))
    }

    /** `setProfile` followed by the persist effect. */
    method Commit(p: Option<UserProfile>)
      modifies this
      ensures profile == p && crashed == old(crashed)
      ensures storage == if p.Some? then old(storage)[ProfileKey := Encoded(p.value)] else old(storage)
    {
      profile := p;
      if p.Some? {
        storage := storage[ProfileKey := Encoded(p.value)];
      }
    }

    /** Start-up on day `today` with local storage `saved`: the initialiser,
        the persist effect, then the streak effect on the loaded profile. */
    constructor Mount(saved: map<string, Stored>, today: int)
      ensures Valid()
      ensures crashed <==> Load(saved).Crashed?
      ensures Load(saved) == Loaded(None) ==> profile.None? && storage == saved
      ensures Load(saved).Crashed? ==> storage == saved
      ensures Load(saved).Loaded? && Load(saved).profile.Some? ==>
                var p := StreakUpdate(Load(saved).profile.value, today);
                profile == Some(p) && storage == saved[ProfileKey := Encoded(p)]
    {
      storage := saved;
      var loaded := Load(saved);
      crashed := loaded.Crashed?;
      profile := if loaded.Loaded? then loaded.profile else None;
      new;
      if profile.Some? {
        var p := profile.value;
        storage := storage[ProfileKey := Encoded(p)];
        if p.lastActiveDate != Some(today) {
          var newStreak := p.streak;
          if p.lastActiveDate.Some? {
            if p.lastActiveDate.value == today - 1 {
              newStreak := newStreak + 1;
            } else {
              newStreak := 1;
            }
          } else {
            newStreak := 1;
          }
          var q := p.(streak := newStreak, lastActiveDate := Some(today));
          profile := Some(q);
          storage := storage[ProfileKey := Encoded(q)];
        }
      }
    }

    /** `handleLogin`: a fresh profile, whatever was held before. */
    method HandleLogin(email: string, level: Level, today: int)
      requires Valid() && !crashed
      modifies this
      ensures Valid() && !crashed
      ensures profile == Some(NewProfile(email, level, today))
      ensures storage == old(storage)[ProfileKey := Encoded(NewProfile(email, level, today))]
    {
      Commit(Some(NewProfile(email, level, today)));
    }

    /** The login form: shown while no profile is held, submitted only with a
        non-empty address. */
    method SubmitLogin(email: string, level: Level, today: int)
      requires Valid() && !crashed
      modifies this
      ensures Valid() && !crashed
      ensures old(profile).None? && email != [] ==>
                profile == Some(NewProfile(email, level, today)) &&
                storage == old(storage)[ProfileKey := Encoded(NewProfile(email, level, today))]
      ensures !(old(profile).None? && email != []) ==> profile == old(profile) && storage == old(storage)
    {
      if profile.None? && email != [] {
        HandleLogin(email, level, today);
      }
    }

    /** `handleLevelChange`: only the level changes; nothing without a profile. */
    method HandleLevelChange(newLevel: Level)
      requires Valid() && !crashed
      modifies this
      ensures Valid() && !crashed
      ensures old(profile).None? ==> profile.None? && storage == old(storage)
      ensures old(profile).Some? ==>
                profile == Some(old(profile).value.(level := newLevel)) &&
                storage == old(storage)[ProfileKey := Encoded(profile.value)]
    {
      if profile.Some? {
        Commit(Some(profile.value.(level := newLevel)));
      }
    }

    /** `addXP`: only the experience changes, by `amount`; nothing without a
        profile. */
    method AddXP(amount: int)
      requires Valid() && !crashed
      modifies this
      ensures Valid() && !crashed
      ensures old(profile).None? ==> profile.None? && storage == old(storage)
      ensures old(profile).Some? ==>
                profile == Some(old(profile).value.(xp := old(profile).value.xp + amount)) &&
                storage == old(storage)[ProfileKey := Encoded(profile.value)]
    {
      if profile.Some? {
        Commit(Some(profile.value.(xp := profile.value.xp + amount)));
      }
    }

    /** `handleLogout`: the key removed, then the profile dropped. */
    method HandleLogout()
      requires Valid() && !crashed
      modifies this
      ensures Valid() && !crashed
      ensures profile.None? && storage == old(storage) - {ProfileKey}
      ensures Load(storage) == Loaded(None)
    {
      storage := storage - {ProfileKey};
      Commit(None);
    }
  }
}
