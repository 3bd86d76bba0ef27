/** The selection step of `main`, from the default category to the URL list
    written to the requirements file: choose the records of the
    parsed table that pip should install, check that each has a URL, and list
    the URLs in table order. */
module Selection {
  import opened Wrappers
  import opened Packages

  const ManagerKey: string := "manager"
  const CategoryKey: string := "category"
  const UrlKey: string := "url"
  const Pip: string := "pip"
  const DefaultCategory: string := "main"

  /** The one error of this step: the selected records without a `url`,
      named in table order. */
  datatype SelectionError = MissingUrls(names: seq<string>)

  /** The requested categories: `["main"]` when none were given. */
  function Categories(requested: Option<seq<string>>): (cats: seq<string>)
    ensures requested.None? ==> cats == [DefaultCategory]
    ensures requested.Some? ==> cats == requested.value
  {
    if requested.None? then [DefaultCategory] else requested.value
  }

  /** `package.get("manager") == "pip"`. */
  predicate IsPip(e: Entry) {
    ManagerKey in e.record && e.record[ManagerKey] == Pip
  }

  /** `package.get("category") in category`: a record without a category is
      never chosen, since `None` is not in a list of strings. */
  predicate InCategories(e: Entry, cats: seq<string>) {
    CategoryKey in e.record && e.record[CategoryKey] in cats
  }

  /** A record pip installs for the categories `cats`. */
  predicate Chosen(e: Entry, cats: seq<string>) {
    IsPip(e) && InCategories(e, cats)
  }

  /** The conditions of the comprehensions of `main`: the manager is `pip`,
      the category is requested, the record has no `url`. */
  datatype Condition = ManagedByPip | CategoryIn(cats: seq<string>) | WithoutUrl

  predicate Holds(c: Condition, e: Entry) {
    match c
    case ManagedByPip => IsPip(e)
    case CategoryIn(cats) => InCategories(e, cats)
    case WithoutUrl => UrlKey !in e.record
  }

  /** Every record carries a `name`, as every table `parse_yaml` returns does. */
  predicate Named(t: Table) {
    forall e :: e in t ==> NameKey in e.record
  }

  /** A comprehension with a condition: the entries of `t` for which `c`
      holds, in the order of `t`. */
  function Filter(t: Table, c: Condition): (r: Table)
    ensures |r| <= |t|
    ensures forall e :: e in r <==> e in t && Holds(c, e)
    decreases |t|
  {
    if |t| == 0 then []
    else (if Holds(c, t[0]) then [t[0]] else []) + Filter(t[1..], c)
  }

  /** Filtering keeps order: filtering a concatenation filters each part. */
  lemma {:induction false} FilterAppend(a: Table, b: Table, c: Condition)
    ensures Filter(a + b, c) == Filter(a, c) + Filter(b, c)
    decreases |a|
  {
    if |a| > 0 {
      assert (a + b)[1..] == a[1..] + b;
      FilterAppend(a[1..], b, c);
    } else {
      assert a + b == b;
    }
  }

  /** The records chosen for `cats`: the pip records (`pip_packages`), then
      those in a requested category (`pip_packages_to_install`). */
  function Select(t: Table, cats: seq<string>): (r: Table)
    ensures forall e :: e in r <==> e in t && Chosen(e, cats)
  {
    Filter(Filter(t, ManagedByPip), CategoryIn(cats))
  }

  /** `[package["name"] for package in t]`: one name per record, in order,
      so a name is listed exactly when some record carries it. */
  function Names(t: Table): (r: seq<string>)
    requires Named(t)
    ensures |r| == |t| && forall i :: 0 <= i < |t| ==> r[i] == t[i].record[NameKey]
    ensures forall n :: n in r <==> exists e :: e in t && e.record[NameKey] == n
  {
    var r := seq(|t|, i requires 0 <= i < |t| => assert t[i] in t; t[i].record[NameKey]);
    assert forall n :: n in r <==> exists e :: e in t && e.record[NameKey] == n by {
      forall n ensures n in r <==> exists e :: e in t && e.record[NameKey] == n {
        if n in r {
          var i :| 0 <= i < |r| && r[i] == n;
          assert t[i] in t;
        }
        if exists e :: e in t && e.record[NameKey] == n {
          var e :| e in t && e.record[NameKey] == n;
          var i :| 0 <= i < |t| && t[i] == e;
          assert r[i] == n;
        }
      }
    }
    r
  }

  /** `[package["url"] for package in t]`, for records that all have one: one
      URL per record, in order, so a URL is listed exactly when some record
      carries it. */
  function Urls(t: Table): (r: seq<string>)
    requires forall e :: e in t ==> UrlKey in e.record
    ensures |r| == |t| && forall i :: 0 <= i < |t| ==> r[i] == t[i].record[UrlKey]
    ensures forall u :: u in r <==> exists e :: e in t && e.record[UrlKey] == u
  {
    var r := seq(|t|, i requires 0 <= i < |t| => assert t[i] in t; t[i].record[UrlKey]);
    assert forall u :: u in r <==> exists e :: e in t && e.record[UrlKey] == u by {
      forall u ensures u in r <==> exists e :: e in t && e.record[UrlKey] == u {
        if u in r {
          var i :| 0 <= i < |r| && r[i] == u;
          assert t[i] in t;
        }
        if exists e :: e in t && e.record[UrlKey] == u {
          var e :| e in t && e.record[UrlKey] == u;
          var i :| 0 <= i < |t| && t[i] == e;
          assert r[i] == u;
        }
      }
    }
    r
  }

  /** The selection step of `main` without the I/O: the URLs pip is asked to install, in table
      order (empty when no record is selected, where `main` installs
      nothing), or the names of all selected records that lack a URL. */
  function PlanInstall(table: Table, requested: Option<seq<string>>): (r: Result<seq<string>, SelectionError>)
    requires Named(table)
    // fails exactly when some chosen record has no URL, naming every such record
    ensures r.Failure? <==> exists e :: e in table && Chosen(e, Categories(requested)) && UrlKey !in e.record
    ensures r.Failure? ==> forall e :: e in table && Chosen(e, Categories(requested)) && UrlKey !in e.record ==>
              e.record[NameKey] in r.error.names
    ensures r.Failure? ==> forall n :: n in r.error.names ==> NamedMissing(table, Categories(requested), n)
    // otherwise one URL per chosen record, each the URL of a chosen record
    ensures r.Success? ==> |r.value| == |Select(table, Categories(requested))|
    ensures r.Success? ==> forall e :: e in table && Chosen(e, Categories(requested)) ==>
              UrlKey in e.record && e.record[UrlKey] in r.value
    ensures r.Success? ==> forall u :: u in r.value ==> ChosenUrl(table, Categories(requested), u)
  {
    var cats := Categories(requested);
    var chosen := Select(table, cats);
    if |chosen| == 0 then Success([])
    else
      var missing := Filter(chosen, WithoutUrl);
      if |missing| > 0 then
        MissingFacts(table, cats, missing);
        Failure(MissingUrls(Names(missing)))
      else
        UrlFacts(table, cats, chosen);
        Success(Urls(chosen))
  }

  /** `n` is the name of a chosen record of `table` without a URL. */
  ghost predicate NamedMissing(table: Table, cats: seq<string>, n: string) {
    exists e :: e in table && Chosen(e, cats) && UrlKey !in e.record && NameKey in e.record && e.record[NameKey] == n
  }

  /** `u` is the URL of a chosen record of `table`. */
  ghost predicate ChosenUrl(table: Table, cats: seq<string>, u: string) {
    exists e :: e in table && Chosen(e, cats) && UrlKey in e.record && e.record[UrlKey] == u
  }

  /** The facts behind the failure half of `PlanInstall`'s contract. */
  lemma MissingFacts(table: Table, cats: seq<string>, missing: Table)
    requires Named(table)
    requires missing == Filter(Select(table, cats), WithoutUrl) && |missing| > 0
    ensures Named(missing)
    ensures exists e :: e in table && Chosen(e, cats) && UrlKey !in e.record
    ensures forall e :: e in table && Chosen(e, cats) && UrlKey !in e.record ==> e.record[NameKey] in Names(missing)
    ensures forall n :: n in Names(missing) ==> NamedMissing(table, cats, n)
  {
    assert missing[0] in missing;
    forall e | e in table && Chosen(e, cats) && UrlKey !in e.record
      ensures e.record[NameKey] in Names(missing)
    {
      assert e in missing;
      var j :| 0 <= j < |missing| && missing[j] == e;
      assert Names(missing)[j] == e.record[NameKey];
    }
    forall n | n in Names(missing)
      ensures NamedMissing(table, cats, n)
    {
      var j :| 0 <= j < |missing| && Names(missing)[j] == n;
      assert missing[j] in missing;
    }
  }

  /** The facts behind the success half of `PlanInstall`'s contract. */
  lemma UrlFacts(table: Table, cats: seq<string>, chosen: Table)
    requires chosen == Select(table, cats) && |Filter(chosen, WithoutUrl)| == 0
    ensures forall e :: e in chosen ==> UrlKey in e.record
    ensures forall e :: e in table && Chosen(e, cats) ==> UrlKey in e.record && e.record[UrlKey] in Urls(chosen)
    ensures forall u :: u in Urls(chosen) ==> ChosenUrl(table, cats, u)
  {
    forall e | e in chosen ensures UrlKey in e.record {
      assert e !in Filter(chosen, WithoutUrl);
    }
    forall e | e in table && Chosen(e, cats)
      ensures UrlKey in e.record && e.record[UrlKey] in Urls(chosen)
    {
      assert e in chosen;
      var j :| 0 <= j < |chosen| && chosen[j] == e;
      assert Urls(chosen)[j] == e.record[UrlKey];
    }
    forall u | u in Urls(chosen)
      ensures ChosenUrl(table, cats, u)
    {
      var j :| 0 <= j < |chosen| && Urls(chosen)[j] == u;
      assert chosen[j] in chosen;
    }
  }

  /** Selection keeps order: selecting from a concatenation selects from
      each part. */
  lemma SelectAppend(a: Table, b: Table, cats: seq<string>)
    ensures Select(a + b, cats) == Select(a, cats) + Select(b, cats)
  {
    FilterAppend(a, b, ManagedByPip);
    FilterAppend(Filter(a, ManagedByPip), Filter(b, ManagedByPip), CategoryIn(cats));
  }

  /** A selection whose every record has a URL yields their URLs. */
  lemma PlanFromSelection(table: Table, requested: Option<seq<string>>)
    requires Named(table)
    requires forall e :: e in Select(table, Categories(requested)) ==> UrlKey in e.record
    ensures PlanInstall(table, requested) == Success(Urls(Select(table, Categories(requested))))
  {
    var chosen := Select(table, Categories(requested));
    if |Filter(chosen, WithoutUrl)| > 0 {
      assert Filter(chosen, WithoutUrl)[0] in Filter(chosen, WithoutUrl);
    }
  }

  /** The URLs follow the table's order: planning for a table split in two,
      where no chosen record lacks a URL, lists the first part's URLs before
      the second part's. */
  lemma UrlsInTableOrder(a: Table, b: Table, requested: Option<seq<string>>)
    requires Named(a) && Named(b)
    requires forall e :: e in a && Chosen(e, Categories(requested)) ==> UrlKey in e.record
    requires forall e :: e in b && Chosen(e, Categories(requested)) ==> UrlKey in e.record
    ensures Named(a + b)
    ensures PlanInstall(a, requested).Success? && PlanInstall(b, requested).Success?
    ensures PlanInstall(a + b, requested) == Success(PlanInstall(a, requested).value + PlanInstall(b, requested).value)
  {
    var cats := Categories(requested);
    var ca, cb := Select(a, cats), Select(b, cats);
    SelectAppend(a, b, cats);
    assert forall e :: e in ca ==> UrlKey in e.record;
    assert forall e :: e in cb ==> UrlKey in e.record;
    PlanFromSelection(a, requested);
    PlanFromSelection(b, requested);
    PlanFromSelection(a + b, requested);
    UrlsAppend(ca, cb);
  }

  /** `Urls` maps each record to its URL, so it distributes over `+`. */
  lemma UrlsAppend(a: Table, b: Table)
    requires forall e :: e in a ==> UrlKey in e.record
    requires forall e :: e in b ==> UrlKey in e.record
    ensures Urls(a + b) == Urls(a) + Urls(b)
  {
    var l, r := Urls(a + b), Urls(a) + Urls(b);
    assert |l| == |r|;
    forall i | 0 <= i < |l| ensures l[i] == r[i] {
      if i < |a| {
        assert (a + b)[i] == a[i];
      } else {
        assert (a + b)[i] == b[i - |a|];
      }
    }
  }

  /** `Names` maps each record to its name, so it distributes over `+`: the
      names follow table order. */
  lemma NamesAppend(a: Table, b: Table)
    requires Named(a) && Named(b)
    ensures Named(a + b)
    ensures Names(a + b) == Names(a) + Names(b)
  {
    var l, r := Names(a + b), Names(a) + Names(b);
    assert |l| == |r|;
    forall i | 0 <= i < |l| ensures l[i] == r[i] {
      if i < |a| {
        assert (a + b)[i] == a[i];
      } else {
        assert (a + b)[i] == b[i - |a|];
      }
    }
  }
}
