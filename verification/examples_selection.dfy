/** Two selection examples on hand-built tables: a `pip` record `foo` in
    category `main`, with or without its URL, next to a `conda` record `bar`. */
module SelectionExamples {
  import opened Wrappers
  import opened Packages
  import opened Selection

  const FooUrl: string := "https://example/foo.whl"

  function Foo(withUrl: bool): (e: Entry) {
    var rec := map["name" := "foo", "platform" := "linux-64", "manager" := "pip", "category" := "main"];
    Entry("foo", if withUrl then rec["url" := FooUrl] else rec)
  }

  function Bar(): (e: Entry) {
    Entry("bar", map["name" := "bar", "platform" := "linux-64", "manager" := "conda"])
  }

  /** With the default category, only `foo` is selected (`bar` is not a pip
      record) and its URL is the whole manifest. */
  lemma DefaultSelectionIsFoo()
    ensures Named([Foo(true), Bar()])
    ensures PlanInstall([Foo(true), Bar()], None) == Success([FooUrl])
  {
    var t := [Foo(true), Bar()];
    assert Chosen(Foo(true), ["main"]) && !Chosen(Bar(), ["main"]);
    assert Filter(t, ManagedByPip) == [Foo(true)] by {
      assert t[1..] == [Bar()];
      assert Filter([Bar()], ManagedByPip) == [];
    }
    assert Select(t, ["main"]) == [Foo(true)];
    PlanFromSelection(t, None);
    assert Urls([Foo(true)]) == [FooUrl] by {
      assert Foo(true).record[UrlKey] == FooUrl;
    }
  }

  /** Without `foo`'s URL, the selection fails naming `foo`. */
  lemma MissingUrlNamesFoo()
    ensures Named([Foo(false), Bar()])
    ensures PlanInstall([Foo(false), Bar()], None) == Failure(MissingUrls(["foo"]))
  {
    var t := [Foo(false), Bar()];
    assert Filter(t, ManagedByPip) == [Foo(false)] by {
      assert t[1..] == [Bar()];
      assert Filter([Bar()], ManagedByPip) == [];
    }
    assert Select(t, ["main"]) == [Foo(false)];
    assert Filter([Foo(false)], WithoutUrl) == [Foo(false)];
    assert Names([Foo(false)]) == ["foo"];
  }
}
