/**
 * The trading accounts of `app/services/accounts.py`, kept in the
 * configuration under `accounts.entries` (id -> {name, storage}) with the
 * active id under `accounts.active`: slugs and fresh ids, the repair of the
 * section, renaming, switching and adding an account, and the listing.
 */
module Accounts {

  import opened Common
  import opened Text
  import opened Config

  const DefaultAccountId := "primary"
  const DefaultAccountName := "Primary account"
  const DefaultAccountStorage := "."

  // ----- _slugify -------------------------------------------------------

  /** A slug character: `[a-z0-9]` or the separator. */
  predicate SlugChar(c: char) { IsLowerAlnum(c) || c == '-' }

  /** A slug: lower-case letters and digits in runs separated by single "-", nothing at the ends. */
  predicate IsSlug(s: string)
  {
    && s != []
    && (forall i :: 0 <= i < |s| ==> SlugChar(s[i]))
    && s[0] != '-' && s[|s| - 1] != '-'
    && (forall i :: 0 <= i < |s| - 1 ==> s[i] == '-' ==> s[i + 1] != '-')
  }

  /**
   * `_slugify(value)`: strip and lower-case, turn every run of characters
   * outside `[a-z0-9]` into one "-", strip "-" from both ends, and fall back
   * to "account" when nothing is left.
   */
  function Slug(value: string): (r: string)
    ensures IsSlug(r)
  {
    var normalized := Lower(Strip(value));
    var dashed := SubRuns(normalized, IsLowerAlnum, "-");
    var slug := StripChar(dashed, '-');
    SlugShape(dashed, slug);
    if slug == [] then "account" else slug
  }

  lemma SlugShape(dashed: string, slug: string)
    requires slug == StripChar(dashed, '-') && (exists s :: dashed == SubRuns(s, IsLowerAlnum, "-"))
    ensures slug == [] || IsSlug(slug)
  {
    var s :| dashed == SubRuns(s, IsLowerAlnum, "-");
    SubRunsSeparated(s, IsLowerAlnum, '-');
    var i, j := StripCharShape(dashed, '-');
    forall k | 0 <= k < |slug| ensures SlugChar(slug[k]) {
      assert slug[k] == dashed[i + k];
    }
    forall k | 0 <= k < |slug| - 1 && slug[k] == '-' ensures slug[k + 1] != '-' {
      assert slug[k] == dashed[i + k] && slug[k + 1] == dashed[i + k + 1];
    }
  }

  /** A slug is its own slug, so slugging twice is slugging once. */
  lemma SlugOfSlug(s: string)
    requires IsSlug(s)
    ensures Slug(s) == s
  {
    forall i | 0 <= i < |s| ensures !IsSpace(s[i]) && LowerChar(s[i]) == s[i] {
      assert SlugChar(s[i]);
    }
    StripNoop(s);
    assert Lower(s) == s;
    assert SeparatedBy(s, IsLowerAlnum, '-');
    SubRunsNoop(s, IsLowerAlnum, '-');
    StripCharNoop(s, '-');
  }

  lemma SlugIdempotent(value: string)
    ensures Slug(Slug(value)) == Slug(value)
  {
    SlugOfSlug(Slug(value));
  }

  // ----- _generate_unique_id --------------------------------------------

  /** An id that cannot be handed out: already used, or the reserved default id. */
  predicate Taken(existing: set<string>, id: string)
  {
    id in existing || id == DefaultAccountId
  }

  /** The n-th id tried for a slug: the slug itself first, then `slug-2`, `slug-3`, and so on. */
  function CandidateAt(slug: string, n: nat): string
  {
    if n < 2 then slug else slug + "-" + NatToString(n)
  }

  /** The ids tried before the n-th one. */
  ghost function TriedBefore(slug: string, n: nat): set<string>
  {
    set k | 1 <= k < n :: CandidateAt(slug, k)
  }

  lemma CandidateInjective(slug: string, a: nat, b: nat)
    requires 1 <= a && 1 <= b && CandidateAt(slug, a) == CandidateAt(slug, b)
    ensures a == b
  {
    var ca, cb := CandidateAt(slug, a), CandidateAt(slug, b);
    assert |ca| > |slug| <==> a >= 2;
    assert |cb| > |slug| <==> b >= 2;
    if a >= 2 && b >= 2 {
      assert ca[|slug| + 1..] == NatToString(a);
      assert cb[|slug| + 1..] == NatToString(b);
      NatToStringInjective(a, b);
    }
  }

  lemma TriedStep(slug: string, n: nat)
    requires n >= 1
    ensures TriedBefore(slug, n + 1) == TriedBefore(slug, n) + {CandidateAt(slug, n)}
    ensures CandidateAt(slug, n) !in TriedBefore(slug, n)
  {
    if CandidateAt(slug, n) in TriedBefore(slug, n) {
      var k :| 1 <= k < n && CandidateAt(slug, k) == CandidateAt(slug, n);
      CandidateInjective(slug, k, n);
    }
  }

  /**
   * `_generate_unique_id(base, existing)`: the first of `slug`, `slug-2`,
   * `slug-3`, ... that is neither in `existing` nor the reserved default id.
   */
  method GenerateUniqueId(base: string, existing: set<string>) returns (id: string)
    ensures !Taken(existing, id)
    ensures exists n :: (n >= 1 && id == CandidateAt(Slug(base), n)
      && forall k :: 1 <= k < n ==> Taken(existing, CandidateAt(Slug(base), k)))
    ensures !Taken(existing, Slug(base)) ==> id == Slug(base)
  {
    var slug := Slug(base);
    var candidate := slug;
    var index := 2;
    while candidate in existing || candidate == DefaultAccountId
      invariant index >= 2 && candidate == CandidateAt(slug, index - 1)
      invariant forall k :: 1 <= k < index - 1 ==> Taken(existing, CandidateAt(slug, k))
      invariant TriedBefore(slug, index - 1) <= existing + {DefaultAccountId}
      decreases existing + {DefaultAccountId} - TriedBefore(slug, index - 1)
    {
      TriedStep(slug, index - 1);
      candidate := slug + "-" + NatToString(index);
      index := index + 1;
    }
    id := candidate;
    assert id == CandidateAt(slug, index - 1);
  }

  // ----- _ensure_account_sections ---------------------------------------

  const DefaultEntry: Value := DictValue(map["name" := StrValue(DefaultAccountName), "storage" := StrValue(DefaultAccountStorage)])

  /** The `accounts` section of a configuration, `{}` when it is missing or not a dict. */
  function SectionOf(raw: map<string, Value>): map<string, Value>
  {
    if "accounts" in raw && raw["accounts"].DictValue? then raw["accounts"].entries else map[]
  }

  /** The `entries` of a section, `{}` when missing or not a dict. */
  function EntriesOf(section: map<string, Value>): map<string, Value>
  {
    if "entries" in section && section["entries"].DictValue? then section["entries"].entries else map[]
  }

  /** The section once repaired: entries a dict holding at least the default account, `active` set. */
  function EnsuredSection(section: map<string, Value>): (r: map<string, Value>)
    ensures "entries" in r && r["entries"].DictValue? && EntriesOf(r) != map[]
    ensures EntriesOf(section) != map[] ==> EntriesOf(r) == EntriesOf(section)
    ensures EntriesOf(section) == map[] ==> EntriesOf(r) == map[DefaultAccountId := DefaultEntry]
    ensures "active" in r && ("active" in section ==> r["active"] == section["active"])
    ensures "active" !in section ==> r["active"] == StrValue(DefaultAccountId)
    ensures forall k :: k in section && k != "entries" ==> k in r && r[k] == section[k]
    ensures r.Keys == section.Keys + {"entries", "active"}
  {
    var entries := EntriesOf(section);
    var filled := if entries == map[] then map[DefaultAccountId := DefaultEntry] else entries;
    assert DefaultAccountId in filled || entries != map[];
    var withEntries := section["entries" := DictValue(filled)];
    assert EntriesOf(withEntries) == filled;
    if "active" in withEntries then withEntries
    else
      var r := withEntries["active" := StrValue(DefaultAccountId)];
      assert EntriesOf(r) == filled;
      r
  }

  /** The whole configuration once `_ensure_account_sections` has run. */
  function EnsuredRaw(raw: map<string, Value>): (r: map<string, Value>)
    ensures "accounts" in r && r["accounts"].DictValue? && SectionOf(r) == EnsuredSection(SectionOf(raw))
    ensures forall k :: k in raw && k != "accounts" ==> k in r && r[k] == raw[k]
    ensures r.Keys == raw.Keys + {"accounts"}
  {
    raw["accounts" := DictValue(EnsuredSection(SectionOf(raw)))]
  }

  /** Repairing twice is repairing once. */
  lemma EnsuredRawIdempotent(raw: map<string, Value>)
    ensures EnsuredRaw(EnsuredRaw(raw)) == EnsuredRaw(raw)
  {
    var s := EnsuredSection(SectionOf(raw));
    var again := EnsuredSection(s);
    assert again == s;
  }

  /**
   * `_ensure_account_sections(cfg)`: replace a missing or non-dict section
   * and entries by `{}`, add the default account to empty entries, and set
   * `active` to the default id when it is missing. Returns the section and
   * its entries as they now stand.
   */
  method EnsureAccountSections(cfg: AppConfig) returns (section: map<string, Value>, entries: map<string, Value>)
    modifies cfg
    ensures cfg.raw == EnsuredRaw(old(cfg.raw))
    ensures section == SectionOf(cfg.raw) && entries == EntriesOf(section) && entries != map[]
  {
    section := SectionOf(cfg.raw);
    entries := EntriesOf(section);
    if entries == map[] {
      entries := map[DefaultAccountId := DefaultEntry];
      if "active" !in section {
        section := section["active" := StrValue(DefaultAccountId)];
      }
    }
    section := section["entries" := DictValue(entries)];
    if "active" !in section {
      section := section["active" := StrValue(DefaultAccountId)];
    }
    assert section == EnsuredSection(SectionOf(cfg.raw));
    cfg.raw := cfg.raw["accounts" := DictValue(section)];
  }

  // ----- prepare_accounts (the configuration part) ------------------------

  /** `os.path.isabs` on a POSIX path. */
  predicate IsAbsolute(path: string) { path != [] && path[0] == '/' }

  /** `os.path.join("accounts", id)`: an absolute id replaces the directory. */
  function AccountDirectory(id: string): string
  {
    if IsAbsolute(id) then id else "accounts/" + id
  }

  /** The fields of an entry; an entry that is not a dict counts as `{}`. */
  function FieldsOf(entry: Value): map<string, Value>
  {
    if entry.DictValue? then entry.entries else map[]
  }

  /**
   * The name an entry keeps: a string name that is not blank, stripped;
   * otherwise the default name for "primary" and the id in title case for
   * any other id.
   */
  function PreparedName(id: string, fields: map<string, Value>): string
  {
    if "name" in fields && fields["name"].StrValue? && Strip(fields["name"].s) != [] then Strip(fields["name"].s)
    else if id == DefaultAccountId then DefaultAccountName
    else Title(id)
  }

  /**
   * The storage an entry keeps: a string path that is not blank, stripped,
   * and made relative to the base directory by `relative`
   * (`os.path.relpath(path, base_dir)`) when it is absolute; otherwise "."
   * for "primary" and `accounts/<id>` for any other id.
   */
  function PreparedStorage(id: string, fields: map<string, Value>, relative: string -> string): string
  {
    if "storage" in fields && fields["storage"].StrValue? && Strip(fields["storage"].s) != [] then
      var path := Strip(fields["storage"].s);
      if IsAbsolute(path) then relative(path) else path
    else if id == DefaultAccountId then DefaultAccountStorage
    else AccountDirectory(id)
  }

  /** One entry once repaired: its fields with the name and storage set as above. */
  function PreparedEntry(id: string, entry: Value, relative: string -> string): Value
  {
    var fields := FieldsOf(entry);
    DictValue(fields["name" := StrValue(PreparedName(id, fields))]["storage" := StrValue(PreparedStorage(id, fields, relative))])
  }

  /** A repaired entry is a dict with a string name and storage, and keeps every other field of the entry. */
  lemma PreparedEntryShape(id: string, entry: Value, relative: string -> string)
    ensures var r := PreparedEntry(id, entry, relative);
      && r.DictValue? && r.entries.Keys == FieldsOf(entry).Keys + {"name", "storage"}
      && r.entries["name"] == StrValue(PreparedName(id, FieldsOf(entry)))
      && r.entries["storage"] == StrValue(PreparedStorage(id, FieldsOf(entry), relative))
      && (forall k :: k in FieldsOf(entry) && k != "name" && k != "storage" ==> r.entries[k] == FieldsOf(entry)[k])
  {
  }

  /** An entry already in shape (a dict, name and storage stripped, not blank, storage relative) is left as it is. */
  lemma PreparedEntryKeepsGood(id: string, entry: Value, relative: string -> string)
    requires entry.DictValue? && "name" in entry.entries && "storage" in entry.entries
    requires entry.entries["name"].StrValue? && entry.entries["name"].s != [] && Strip(entry.entries["name"].s) == entry.entries["name"].s
    requires entry.entries["storage"].StrValue? && entry.entries["storage"].s != []
    requires Strip(entry.entries["storage"].s) == entry.entries["storage"].s && !IsAbsolute(entry.entries["storage"].s)
    ensures PreparedEntry(id, entry, relative) == entry
  {
    var r := PreparedEntry(id, entry, relative);
    assert r.entries == entry.entries;
  }

  /** The name a missing or blank name is replaced by: never blank for "primary", the title-cased id otherwise. */
  lemma PreparedNameDefault(id: string, fields: map<string, Value>)
    requires "name" !in fields || !fields["name"].StrValue? || Strip(fields["name"].s) == []
    ensures id == DefaultAccountId ==> PreparedName(id, fields) == "Primary account"
    ensures id != DefaultAccountId ==> PreparedName(id, fields) == Title(id) && Title(PreparedName(id, fields)) == PreparedName(id, fields)
  {
    if id != DefaultAccountId {
      TitleIdempotent(id);
    }
  }

  /** An entry that is not a dict (`None`, a string, ...) becomes the default entry for its id. */
  lemma NonDictEntryRepaired(id: string, entry: Value, relative: string -> string)
    requires !entry.DictValue?
    ensures id == DefaultAccountId ==> PreparedEntry(id, entry, relative) == DefaultEntry
    ensures id != DefaultAccountId ==>
      PreparedEntry(id, entry, relative) == DictValue(map["name" := StrValue(Title(id)), "storage" := StrValue(AccountDirectory(id))])
  {
    assert FieldsOf(entry) == map[];
  }

  /** Every entry repaired, under the same ids. */
  function PreparedEntries(entries: map<string, Value>, relative: string -> string): (r: map<string, Value>)
    ensures r.Keys == entries.Keys
    ensures forall id :: id in r ==> r[id].DictValue?
  {
    map id | id in entries :: PreparedEntry(id, entries[id], relative)
  }

  /** The section's `active` names one of its entries. */
  predicate NamesEntry(section: map<string, Value>)
  {
    "active" in section && section["active"].StrValue? && section["active"].s in EntriesOf(section)
  }

  /**
   * The repaired section: every entry repaired, and an `active` that names
   * no entry replaced by `first`, the id of the first entry in the order
   * the entries are stored.
   */
  function PreparedSection(section: map<string, Value>, first: string, relative: string -> string): (r: map<string, Value>)
    ensures "active" in r && "entries" in r && r["entries"] == DictValue(PreparedEntries(EntriesOf(section), relative))
    ensures NamesEntry(section) ==> r["active"] == section["active"]
    ensures !NamesEntry(section) ==> r["active"] == StrValue(first)
  {
    var repaired := section["entries" := DictValue(PreparedEntries(EntriesOf(section), relative))];
    if NamesEntry(section) then repaired else repaired["active" := StrValue(first)]
  }

  /** The repair touches only `entries` and `active`; when `first` is an entry id, `active` then names an entry. */
  lemma PreparedSectionKeeps(section: map<string, Value>, first: string, relative: string -> string)
    ensures var r := PreparedSection(section, first, relative);
      forall k :: k in section && k != "entries" && k != "active" ==> k in r && r[k] == section[k]
    ensures first in EntriesOf(section) ==> NamesEntry(PreparedSection(section, first, relative))
  {
  }

  /** The whole configuration once `prepare_accounts` has run: sections ensured, then entries and `active` repaired. */
  function PreparedRaw(raw: map<string, Value>, first: string, relative: string -> string): (r: map<string, Value>)
    ensures "accounts" in r && r["accounts"] == DictValue(PreparedSection(SectionOf(EnsuredRaw(raw)), first, relative))
  {
    var ensured := EnsuredRaw(raw);
    ensured["accounts" := DictValue(PreparedSection(SectionOf(ensured), first, relative))]
  }

  /** A prepared configuration needs no further repair by `_ensure_account_sections`. */
  lemma PreparedIsEnsured(raw: map<string, Value>, first: string, relative: string -> string)
    ensures EnsuredRaw(PreparedRaw(raw, first, relative)) == PreparedRaw(raw, first, relative)
  {
    var ensured := SectionOf(EnsuredRaw(raw));
    var s := PreparedSection(ensured, first, relative);
    PreparedEntriesNonEmpty(EntriesOf(ensured), relative);
    EnsuredSectionStable(s);
    var prepared := PreparedRaw(raw, first, relative);
    assert SectionOf(prepared) == s;
    RawStable(prepared);
  }

  /** `_ensure_account_sections` leaves a configuration whose section it would leave as it is. */
  lemma RawStable(raw: map<string, Value>)
    requires "accounts" in raw && raw["accounts"].DictValue? && EnsuredSection(SectionOf(raw)) == SectionOf(raw)
    ensures EnsuredRaw(raw) == raw
  {
  }

  /** Repairing the entries of a non-empty dict leaves it non-empty. */
  lemma PreparedEntriesNonEmpty(entries: map<string, Value>, relative: string -> string)
    requires entries != map[]
    ensures PreparedEntries(entries, relative) != map[]
  {
  }

  /** `_ensure_account_sections` leaves a section with non-empty entries and an `active` as it is. */
  lemma EnsuredSectionStable(section: map<string, Value>)
    requires "entries" in section && section["entries"].DictValue? && EntriesOf(section) != map[] && "active" in section
    ensures EnsuredSection(section) == section
  {
    var r := EnsuredSection(section);
    assert r.Keys == section.Keys;
    assert r["entries"] == section["entries"];
  }

  /**
   * The loop of `prepare_accounts` over the entries: each entry is replaced
   * by its repair, and `found` records whether one of the ids equals the
   * `active` value.
   */
  method RepairEntries(entries: map<string, Value>, active: Value, relative: string -> string)
    returns (repaired: map<string, Value>, found: bool)
    ensures repaired == PreparedEntries(entries, relative)
    ensures found <==> active.StrValue? && active.s in entries
  {
    repaired := entries;
    found := false;
    var todo := entries.Keys;
    while todo != {}
      invariant todo <= entries.Keys && repaired.Keys == entries.Keys
      invariant forall id :: id in entries && id !in todo ==> repaired[id] == PreparedEntry(id, entries[id], relative)
      invariant found <==> active.StrValue? && active.s in entries && active.s !in todo
      decreases todo
    {
      var id :| id in todo;
      repaired := repaired[id := PreparedEntry(id, entries[id], relative)];
      if active == StrValue(id) {
        found := true;
      }
      todo := todo - {id};
    }
  }

  /**
   * The repair of an ensured section (one with an `active` value): each
   * entry repaired, and `first` made active when no entry carries the
   * `active` id. Returns the section and the id it makes active.
   */
  method RepairSection(section: map<string, Value>, first: string, relative: string -> string)
    returns (r: map<string, Value>, activeId: string)
    requires "active" in section
    ensures r == PreparedSection(section, first, relative)
    ensures r["active"] == StrValue(activeId)
  {
    var active := section["active"];
    var repaired, found := RepairEntries(EntriesOf(section), active, relative);
    assert found <==> NamesEntry(section);
    r := section["entries" := DictValue(repaired)];
    if found {
      activeId := active.s;
    } else {
      activeId := first;
      r := r["active" := StrValue(first)];
    }
  }

  /**
   * `prepare_accounts(cfg, base_dir)`, its configuration part: the sections
   * are ensured, each entry is repaired, and when no entry carries the
   * `active` id the first entry becomes active. Returns the active id.
   * The branch for a configuration without entries cannot be taken once
   * the sections are ensured.
   */
  method PrepareAccounts(cfg: AppConfig, first: string, relative: string -> string) returns (activeId: string)
    modifies cfg
    ensures cfg.raw == PreparedRaw(old(cfg.raw), first, relative)
    ensures SectionOf(cfg.raw)["active"] == StrValue(activeId)
  {
    var section, entries := EnsureAccountSections(cfg);
    section, activeId := RepairSection(section, first, relative);
    cfg.raw := cfg.raw["accounts" := DictValue(section)];
  }

  // ----- rename_account, set_active_account, create_account ---------------

  /** What the account operations raise. */
  datatype AccountError = UnknownAccount | BlankName | EntryNotADict

  /** `(name or "").strip()`. */
  function Sanitized(name: Option<string>): string
  {
    Strip(name.GetOr(""))
  }

  /**
   * The body of `rename_account` that follows `prepare_accounts`: the
   * sections are ensured, an id with no entry (or a `None` entry) is
   * refused, then a blank name; otherwise the stripped name is stored in the
   * entry. Assigning into an entry that is not a dict raises.
   */
  method RenameEntry(cfg: AppConfig, accountId: string, newName: Option<string>) returns (r: Result<(), AccountError>)
    modifies cfg
    ensures var before := EnsuredRaw(old(cfg.raw));
      var entries := EntriesOf(SectionOf(before));
      && (accountId !in entries || entries[accountId] == NullValue <==> r == Err(UnknownAccount))
      && (r == Err(BlankName) <==> accountId in entries && entries[accountId] != NullValue && Sanitized(newName) == [])
      && (r == Err(EntryNotADict) <==>
            (accountId in entries && entries[accountId] != NullValue && Sanitized(newName) != [] && !entries[accountId].DictValue?))
      && (r.Ok? ==> (entries[accountId].DictValue?
            && cfg.raw == RenamedRaw(before, accountId, Sanitized(newName))
            && EntriesOf(SectionOf(cfg.raw))[accountId].entries["name"] == StrValue(Sanitized(newName))))
      && (r.Err? ==> cfg.raw == before)
  {
    var section, entries := EnsureAccountSections(cfg);
    if accountId !in entries || entries[accountId] == NullValue {
      return Err(UnknownAccount);
    }
    var sanitized := Sanitized(newName);
    if sanitized == [] {
      return Err(BlankName);
    }
    var entry := entries[accountId];
    if !entry.DictValue? {
      return Err(EntryNotADict);
    }
    entry := DictValue(entry.entries["name" := StrValue(sanitized)]);
    entries := entries[accountId := entry];
    section := section["entries" := DictValue(entries)];
    cfg.raw := cfg.raw["accounts" := DictValue(section)];
    r := Ok(());
  }

  /**
   * `rename_account`: `prepare_accounts` turns every entry into a dict, so
   * after it only an id with no entry is refused, then a blank name;
   * otherwise the stripped name is stored in the entry.
   */
  method RenameAccount(cfg: AppConfig, accountId: string, newName: Option<string>, first: string, relative: string -> string)
    returns (r: Result<(), AccountError>)
    modifies cfg
    ensures var before := PreparedRaw(old(cfg.raw), first, relative);
      var entries := EntriesOf(SectionOf(before));
      && (r == Err(UnknownAccount) <==> accountId !in entries)
      && (r == Err(BlankName) <==> accountId in entries && Sanitized(newName) == [])
      && (r.Ok? ==> (cfg.raw == RenamedRaw(before, accountId, Sanitized(newName))
            && EntriesOf(SectionOf(cfg.raw))[accountId].entries["name"] == StrValue(Sanitized(newName))))
      && (r.Err? ==> cfg.raw == before)
  {
    var _ := PrepareAccounts(cfg, first, relative);
    PreparedIsEnsured(old(cfg.raw), first, relative);
    r := RenameEntry(cfg, accountId, newName);
  }

  /** The configuration with the name of one (dict) entry replaced. */
  function RenamedRaw(raw: map<string, Value>, accountId: string, name: string): map<string, Value>
    requires accountId in EntriesOf(SectionOf(raw)) && EntriesOf(SectionOf(raw))[accountId].DictValue?
  {
    var section := SectionOf(raw);
    var entries := EntriesOf(section);
    var entry := DictValue(entries[accountId].entries["name" := StrValue(name)]);
    raw["accounts" := DictValue(section["entries" := DictValue(entries[accountId := entry])])]
  }

  /** Renaming touches only the one entry's name: the ids, the other entries and `active` stay. */
  lemma RenameKeepsOthers(raw: map<string, Value>, accountId: string, name: string)
    requires "accounts" in raw && raw["accounts"].DictValue? && "entries" in SectionOf(raw)
    requires accountId in EntriesOf(SectionOf(raw)) && EntriesOf(SectionOf(raw))[accountId].DictValue?
    ensures var after := EntriesOf(SectionOf(RenamedRaw(raw, accountId, name)));
      var before := EntriesOf(SectionOf(raw));
      && after.Keys == before.Keys
      && (forall id :: id in before && id != accountId ==> after[id] == before[id])
      && after[accountId].entries.Keys == before[accountId].entries.Keys + {"name"}
      && (forall k :: k in before[accountId].entries && k != "name" ==> after[accountId].entries[k] == before[accountId].entries[k])
    ensures var s := SectionOf(RenamedRaw(raw, accountId, name));
      forall k :: k in SectionOf(raw) && k != "entries" ==> k in s && s[k] == SectionOf(raw)[k]
  {
  }

  /**
   * The body of `set_active_account` that follows `prepare_accounts`: the
   * sections are ensured; an unknown id is refused; an id already active
   * gives `False` and changes nothing; any other id becomes active and gives
   * `True`.
   */
  method Activate(cfg: AppConfig, accountId: string) returns (r: Result<bool, AccountError>)
    modifies cfg
    ensures var before := EnsuredRaw(old(cfg.raw));
      var section := SectionOf(before);
      && (r == Err(UnknownAccount) <==> accountId !in EntriesOf(section))
      && (r == Ok(false) <==> accountId in EntriesOf(section) && section["active"] == StrValue(accountId))
      && (r.Ok? ==> SectionOf(cfg.raw) == section["active" := StrValue(accountId)])
      && (r.Ok? ==> cfg.raw == before["accounts" := DictValue(section["active" := StrValue(accountId)])])
      && (!r.Ok? || !r.value ==> cfg.raw == before)
  {
    var section, entries := EnsureAccountSections(cfg);
    if accountId !in entries {
      return Err(UnknownAccount);
    }
    if "active" in section && section["active"] == StrValue(accountId) {
      assert section["active" := StrValue(accountId)] == section;
      return Ok(false);
    }
    section := section["active" := StrValue(accountId)];
    cfg.raw := cfg.raw["accounts" := DictValue(section)];
    r := Ok(true);
  }

  /**
   * `set_active_account`: after `prepare_accounts` (which resets a stale
   * `active` to the first entry) an unknown id is refused; an id already
   * active gives `False` and changes nothing; any other id becomes active
   * and gives `True`.
   */
  method SetActiveAccount(cfg: AppConfig, accountId: string, first: string, relative: string -> string)
    returns (r: Result<bool, AccountError>)
    modifies cfg
    ensures var before := PreparedRaw(old(cfg.raw), first, relative);
      var section := SectionOf(before);
      && (r == Err(UnknownAccount) <==> accountId !in EntriesOf(section))
      && (r == Ok(false) <==> accountId in EntriesOf(section) && section["active"] == StrValue(accountId))
      && (r.Ok? ==> cfg.raw == before["accounts" := DictValue(section["active" := StrValue(accountId)])])
      && (!r.Ok? || !r.value ==> cfg.raw == before)
  {
    var _ := PrepareAccounts(cfg, first, relative);
    PreparedIsEnsured(old(cfg.raw), first, relative);
    r := Activate(cfg, accountId);
  }

  /** What `create_account` returns, without the absolute path it also computes. */
  datatype Created = Created(id: string, name: string, storage: string)

  /** The name a new account gets: the stripped requested name, or "Account N" for the N-th account. */
  function NewAccountName(requested: Option<string>, count: nat): (r: string)
    ensures r != []
    ensures Sanitized(requested) != [] ==> r == Sanitized(requested)
  {
    var sanitized := Sanitized(requested);
    if sanitized == [] then "Account " + NatToString(count + 1) else sanitized
  }

  /** The entry `create_account` writes for a new account. */
  function NewEntry(name: string, storage: string): Value
  {
    DictValue(map["name" := StrValue(name), "storage" := StrValue(storage)])
  }

  /** The configuration with one more account entry, made the active one. */
  function AddedRaw(raw: map<string, Value>, id: string, name: string, storage: string): (r: map<string, Value>)
    ensures EntriesOf(SectionOf(r)) == EntriesOf(SectionOf(raw))[id := NewEntry(name, storage)]
    ensures "active" in SectionOf(r) && SectionOf(r)["active"] == StrValue(id)
    ensures forall k :: k in raw && k != "accounts" ==> k in r && r[k] == raw[k]
  {
    var section := SectionOf(raw);
    var entries := EntriesOf(section)[id := NewEntry(name, storage)];
    var s := section["entries" := DictValue(entries)]["active" := StrValue(id)];
    assert EntriesOf(s) == entries;
    raw["accounts" := DictValue(s)]
  }

  /**
   * The body of `create_account` that follows `prepare_accounts`, its
   * configuration part: the sections are ensured, then a fresh id derived
   * from the name is added with storage `accounts/<id>` and becomes the
   * active account.
   */
  method AddAccount(cfg: AppConfig, requested: Option<string>) returns (created: Created)
    modifies cfg
    ensures var before := EnsuredRaw(old(cfg.raw));
      && created.id !in EntriesOf(SectionOf(before)) && created.id != DefaultAccountId
      && created.name == NewAccountName(requested, |EntriesOf(SectionOf(before))|)
      && created.storage == "accounts/" + created.id
      && cfg.raw == AddedRaw(before, created.id, created.name, created.storage)
  {
    var section, entries := EnsureAccountSections(cfg);
    var name := NewAccountName(requested, |entries|);
    var id := GenerateUniqueId(name, entries.Keys);
    var storage := "accounts/" + id;
    entries := entries[id := NewEntry(name, storage)];
    section := section["entries" := DictValue(entries)]["active" := StrValue(id)];
    cfg.raw := cfg.raw["accounts" := DictValue(section)];
    created := Created(id, name, storage);
  }

  /**
   * The configuration part of `create_account`: after `prepare_accounts`, a
   * fresh id derived from the name is added with storage `accounts/<id>`
   * and becomes the active account.
   */
  method CreateAccount(cfg: AppConfig, requested: Option<string>, first: string, relative: string -> string)
    returns (created: Created)
    modifies cfg
    ensures var before := PreparedRaw(old(cfg.raw), first, relative);
      && created.id !in EntriesOf(SectionOf(before)) && created.id != DefaultAccountId
      && created.name == NewAccountName(requested, |EntriesOf(SectionOf(before))|)
      && created.storage == "accounts/" + created.id
      && cfg.raw == AddedRaw(before, created.id, created.name, created.storage)
  {
    var _ := PrepareAccounts(cfg, first, relative);
    PreparedIsEnsured(old(cfg.raw), first, relative);
    created := AddAccount(cfg, requested);
  }

  // ----- serialize_accounts ---------------------------------------------

  /** An `AccountRecord` (its absolute `path` is left out). */
  datatype AccountRecord = AccountRecord(id: string, name: string, storage: string)

  /** One serialised account: the record's fields and whether it is the active one. */
  datatype AccountView = AccountView(id: string, name: string, storage: string, isActive: bool)

  /** `serialize_accounts(accounts, active)`. */
  function SerializeAccounts(accounts: seq<AccountRecord>, active: AccountRecord): (r: seq<AccountView>)
    ensures |r| == |accounts|
    ensures forall i :: 0 <= i < |r| ==>
      r[i].id == accounts[i].id && r[i].name == accounts[i].name && r[i].storage == accounts[i].storage
    ensures forall i :: 0 <= i < |r| ==> (r[i].isActive <==> accounts[i].id == active.id)
  {
    seq(|accounts|, i requires 0 <= i < |accounts| =>
      AccountView(accounts[i].id, accounts[i].name, accounts[i].storage, accounts[i].id == active.id))
  }

  /** With distinct ids, exactly one listed account is marked active when the active record is listed, and none otherwise. */
  lemma SerializeOneActive(accounts: seq<AccountRecord>, active: AccountRecord)
    requires forall i, j :: 0 <= i < j < |accounts| ==> accounts[i].id != accounts[j].id
    ensures var r := SerializeAccounts(accounts, active);
      forall i, j :: 0 <= i < |r| && 0 <= j < |r| && r[i].isActive && r[j].isActive ==> i == j
    ensures var r := SerializeAccounts(accounts, active);
      (exists i :: 0 <= i < |r| && r[i].isActive) <==> (exists i :: 0 <= i < |accounts| && accounts[i].id == active.id)
  {
  }
}
