/** The public profile of a seller lists one heading per category of listings.
    Headings whose link goes to a "chips" page are currency categories; the rest
    are ordinary ones. The category id is the second-to-last path segment of the
    link. The page is given as its status and its heading links. */
module Users {
  import opened Types
  import opened Strings
  import FunPayAccount

  /** One category heading: its link and its text. */
  datatype CategoryLink = CategoryLink(href: string, text: string)

  datatype ProfilePage = ProfilePage(status: int, links: seq<CategoryLink>)

  datatype UserError =
    | UserNotFound           // status 404
    | BadStatus(code: int)   // any other status than 200
    | MissingIdSegment       // the link has no second-to-last segment (IndexError)
    | IdNotInteger           // that segment is not an integer (ValueError)

  function KindOfLink(href: string): CategoryType {
    if Contains(href, "chips") then Currency else Lot
  }

  /** A heading is turned into a category unless it is a currency one and currency
      is not wanted. */
  predicate Wanted(link: CategoryLink, includeCurrency: bool) {
    !Contains(link.href, "chips") || includeCurrency
  }

  /** The category of one heading; its game is not known yet. */
  function CategoryOfLink(link: CategoryLink): (r: Result<Category, UserError>)
    ensures r.Ok? ==> r.value.publicLink == link.href && r.value.editLotsLink == link.href + "trade"
    ensures r.Ok? ==> r.value.gameId == None && r.value.title == link.text && r.value.kind == KindOfLink(link.href)
  {
    var parts := Split(link.href, '/');
    if |parts| < 2 then Err(MissingIdSegment)
    else match ParseInt(parts[|parts| - 2])
      case None => Err(IdNotInteger)
      case Some(id) => Ok(Category(id, None, link.text, link.href + "trade", link.href, KindOfLink(link.href)))
  }

  /** The headings that become categories, in page order. */
  function WantedLinks(links: seq<CategoryLink>, includeCurrency: bool): seq<CategoryLink> {
    if links == [] then []
    else
      var prev := WantedLinks(links[..|links| - 1], includeCurrency);
      if Wanted(links[|links| - 1], includeCurrency) then prev + [links[|links| - 1]] else prev
  }

  /** The categories of the wanted headings in page order, or the error of the
      first heading that cannot be read. */
  function UserCategories(links: seq<CategoryLink>, includeCurrency: bool): Result<seq<Category>, UserError> {
    if links == [] then Ok([])
    else
      var prev := UserCategories(links[..|links| - 1], includeCurrency);
      var link := links[|links| - 1];
      if prev.Err? || !Wanted(link, includeCurrency) then prev
      else match CategoryOfLink(link)
        case Err(e) => Err(e)
        case Ok(c) => Ok(prev.value + [c])
  }

  /** The loop over the headings of the page. */
  method GetUserCategories(page: ProfilePage, includeCurrency: bool) returns (r: Result<seq<Category>, UserError>)
    ensures page.status == 404 ==> r == Err(UserNotFound)
    ensures page.status != 404 && page.status != 200 ==> r == Err(BadStatus(page.status))
    ensures page.status == 200 ==> r == UserCategories(page.links, includeCurrency)
  {
    if page.status == 404 {
      return Err(UserNotFound);
    }
    if page.status != 200 {
      return Err(BadStatus(page.status));
    }
    var categories: seq<Category> := [];
    var links := page.links;
    var i := 0;
    while i < |links|
      invariant 0 <= i <= |links|
      invariant UserCategories(links[..i], includeCurrency) == Ok(categories)
    {
      UserCategoriesNext(links, includeCurrency, i, categories);
      var link := links[i];
      if !Wanted(link, includeCurrency) {
        i := i + 1;
        continue;
      }
      var c := CategoryOfLink(link);
      if c.Err? {
        return Err(c.error);
      }
      categories := categories + [c.value];
      i := i + 1;
    }
    assert links[..|links|] == links;
    return Ok(categories);
  }

  /** One turn of the loop over the headings. */
  lemma UserCategoriesNext(links: seq<CategoryLink>, includeCurrency: bool, i: nat, cats: seq<Category>)
    requires i < |links| && UserCategories(links[..i], includeCurrency) == Ok(cats)
    ensures !Wanted(links[i], includeCurrency) ==> UserCategories(links[..i + 1], includeCurrency) == Ok(cats)
    ensures Wanted(links[i], includeCurrency) && CategoryOfLink(links[i]).Err? ==>
      UserCategories(links, includeCurrency) == Err(CategoryOfLink(links[i]).error)
    ensures Wanted(links[i], includeCurrency) && CategoryOfLink(links[i]).Ok? ==>
      UserCategories(links[..i + 1], includeCurrency) == Ok(cats + [CategoryOfLink(links[i]).value])
  {
    assert links[..i + 1][..i] == links[..i];
    if Wanted(links[i], includeCurrency) && CategoryOfLink(links[i]).Err? {
      UserCategoriesErrSticks(links, includeCurrency, i + 1);
    }
  }

  /** Once a heading fails, the whole page fails with that heading's error. */
  lemma {:induction false} UserCategoriesErrSticks(links: seq<CategoryLink>, includeCurrency: bool, n: nat)
    requires n <= |links| && UserCategories(links[..n], includeCurrency).Err?
    ensures UserCategories(links, includeCurrency) == UserCategories(links[..n], includeCurrency)
    decreases |links| - n
  {
    if n < |links| {
      assert links[..n + 1][..n] == links[..n];
      UserCategoriesErrSticks(links, includeCurrency, n + 1);
    } else {
      assert links[..n] == links;
    }
  }

  /** A successful page yields one category per wanted heading, in page order,
      each built from its heading. */
  lemma {:induction false} UserCategoriesFromHeadings(links: seq<CategoryLink>, includeCurrency: bool)
    ensures var r := UserCategories(links, includeCurrency); var w := WantedLinks(links, includeCurrency);
      (r.Ok? <==> forall i :: 0 <= i < |w| ==> CategoryOfLink(w[i]).Ok?)
      && (r.Ok? ==> |r.value| == |w| && forall i :: 0 <= i < |w| ==> CategoryOfLink(w[i]) == Ok(r.value[i]))
  {
    if links != [] {
      var init := links[..|links| - 1];
      var link := links[|links| - 1];
      UserCategoriesFromHeadings(init, includeCurrency);
      var w0 := WantedLinks(init, includeCurrency);
      if Wanted(link, includeCurrency) {
        var w := w0 + [link];
        assert forall i :: 0 <= i < |w0| ==> w[i] == w0[i];
        assert w[|w0|] == link;
      }
    }
  }

  /** Without currency, no currency category is returned. */
  lemma {:induction false} NoCurrencyUnlessAsked(links: seq<CategoryLink>)
    ensures var r := UserCategories(links, false);
      r.Ok? ==> forall i :: 0 <= i < |r.value| ==> r.value[i].kind == Lot
  {
    if links != [] {
      NoCurrencyUnlessAsked(links[..|links| - 1]);
    }
  }

  /** The canonical public link "https://funpay.com/<dir>/<id>/" yields that id. */
  lemma CanonicalLinkId(dir: string, id: int, text: string)
    requires '/' !in dir
    ensures var href := FunPayAccount.BaseUrl + "/" + dir + "/" + IntToString(id) + "/";
      CategoryOfLink(CategoryLink(href, text)).Ok?
      && CategoryOfLink(CategoryLink(href, text)).value.id == id
  {
    var d := IntToString(id);
    IntToStringShape(id);
    var parts := ["https:", "", "funpay.com", dir, d, ""];
    FunPayAccount.JoinSix("https:", "", "funpay.com", dir, d, "", "/");
    var sl := "/";
    assert "https:" + sl + "" + sl + "funpay.com" == FunPayAccount.BaseUrl;
    assert Join(parts, "/") == FunPayAccount.BaseUrl + "/" + dir + "/" + d + "/";
    assert forall i :: 0 <= i < 6 ==> '/' !in parts[i];
    JoinSplit(parts, '/');
    ParseIntToString(id);
  }
}
