/** Categories and brands. The two controllers are the same code over two
    tables: a row has a name, a slug derived from the name at creation, one
    free-text column (a category's description, a brand's website) and one
    uploaded picture (a category's image, a brand's logo). The tables are
    listed by name, read and deleted by id, and updated partially. */
module Taxonomy {
  import opened Common
  import opened Text
  import opened Slug

  datatype Label = Label(id: int, name: string, slug: string, text: Option<string>, picture: Option<string>)

  // Ordering by name

  /** Lexicographic order on character codes. */
  predicate LexLe(a: string, b: string) {
    a == [] || (b != [] && (a[0] < b[0] || (a[0] == b[0] && LexLe(a[1..], b[1..]))))
  }

  lemma {:induction false} LexTotal(a: string, b: string)
    ensures LexLe(a, b) || LexLe(b, a)
  {
    if a != [] && b != [] && a[0] == b[0] {
      LexTotal(a[1..], b[1..]);
    }
  }

  lemma {:induction false} LexTrans(a: string, b: string, c: string)
    requires LexLe(a, b) && LexLe(b, c)
    ensures LexLe(a, c)
  {
    if a != [] && b[0] == c[0] && a[0] == b[0] {
      LexTrans(a[1..], b[1..], c[1..]);
    }
  }

  predicate SortedByName(s: seq<Label>) {
    forall i, j :: 0 <= i < j < |s| ==> LexLe(s[i].name, s[j].name)
  }

  /** Places `x` before the first row whose name it does not exceed. */
  function Insert(x: Label, s: seq<Label>): (r: seq<Label>)
    requires SortedByName(s)
    ensures SortedByName(r)
    ensures multiset(r) == multiset(s) + multiset{x}
    ensures r != [] && (r[0] == x || (s != [] && r[0] == s[0]))
  {
    if s == [] then [x]
    else if LexLe(x.name, s[0].name) then
      assert forall j :: 0 < j < |s| ==> LexLe(s[0].name, s[j].name);
      InsertFront(x, s);
      [x] + s
    else
      assert s == [s[0]] + s[1..];
      var t := Insert(x, s[1..]);
      LexTotal(x.name, s[0].name);
      InsertBehind(s[0], t, x);
      [s[0]] + t
  }

  lemma InsertFront(x: Label, s: seq<Label>)
    requires SortedByName(s) && s != [] && LexLe(x.name, s[0].name)
    ensures SortedByName([x] + s)
  {
    var r := [x] + s;
    forall i, j | 0 <= i < j < |r|
      ensures LexLe(r[i].name, r[j].name)
    {
      if i == 0 && j > 1 {
        LexTrans(x.name, s[0].name, s[j - 1].name);
      }
    }
  }

  lemma InsertBehind(y: Label, t: seq<Label>, x: Label)
    requires SortedByName(t) && t != [] && LexLe(y.name, x.name)
    requires t[0] == x || LexLe(y.name, t[0].name)
    ensures SortedByName([y] + t)
  {
    var r := [y] + t;
    assert LexLe(y.name, t[0].name);
    forall i, j | 0 <= i < j < |r|
      ensures LexLe(r[i].name, r[j].name)
    {
      if i == 0 && j > 1 {
        LexTrans(y.name, t[0].name, t[j - 1].name);
      }
    }
  }

  /** `orderBy: { name: 'asc' }`. */
  function SortByName(s: seq<Label>): (r: seq<Label>)
    ensures SortedByName(r)
    ensures multiset(r) == multiset(s)
  {
    if s == [] then []
    else
      assert s == [s[0]] + s[1..];
      Insert(s[0], SortByName(s[1..]))
  }

  // The table

  predicate IdsUnique(rows: seq<Label>) {
    forall i, j :: 0 <= i < j < |rows| ==> rows[i].id != rows[j].id
  }

  predicate IdsBelow(rows: seq<Label>, nextId: int) {
    forall i :: 0 <= i < |rows| ==> rows[i].id < nextId
  }

  function FindLabel(rows: seq<Label>, id: int): Option<nat> {
    FindKey(rows, (x: Label) => x.id, id)
  }

  /** The row a create request makes: the slug is taken from the name, the
      picture is the uploaded file or null. A missing name makes
      `name.toLowerCase()` throw. */
  function NewLabel(id: int, name: Option<string>, text: Option<string>, upload: Option<string>)
    : (r: Result<Label, Error>)
    ensures r.Err? <==> name.None?
    ensures r.Err? ==> r.error == ServerError
    ensures r.Ok? ==> r.value.id == id && r.value.name == name.value && r.value.text == text
                      && IsSlug(r.value.slug) && r.value.slug == MakeSlug(name.value)
                      && (upload.Some? <==> r.value.picture.Some?)
                      && (upload.Some? ==> r.value.picture.value == UploadPath(upload.value))
  {
    match name
    case None => Err(ServerError)
    case Some(n) =>
      SlugShape(n);
      Ok(Label(id, n, MakeSlug(n), text, if upload.Some? then Some(UploadPath(upload.value)) else None))
  }

  /** The update spread. The uploaded path is never empty, so a new upload
      always replaces the picture; the slug is not recomputed. */
  function MergeLabel(l: Label, name: Option<string>, text: Option<string>, upload: Option<string>): (r: Label)
    ensures r.id == l.id && r.slug == l.slug
    ensures r.name == MergeTruthy(l.name, name)
    ensures r.text == MergeTruthyOpt(l.text, text)
    ensures upload.Some? ==> r.picture == Some(UploadPath(upload.value))
    ensures upload.None? ==> r.picture == l.picture
  {
    var picture := if upload.Some? then Some(UploadPath(upload.value)) else None;
    Label(l.id, MergeTruthy(l.name, name), l.slug, MergeTruthyOpt(l.text, text), MergeTruthyOpt(l.picture, picture))
  }

  /** A request without name, text or file leaves the row as it was. */
  lemma EmptyUpdateKeepsLabel(l: Label, name: Option<string>, text: Option<string>)
    requires !Truthy(name) && !Truthy(text)
    ensures MergeLabel(l, name, text, None) == l
  {
  }

  /** A renamed row keeps the slug of the name it was created with, not the
      slug of its new name. */
  lemma RenameKeepsSlug(id: int, first: string, second: string, text: Option<string>)
    requires second != ""
    ensures var l := NewLabel(id, Some(first), text, None).value;
            var u := MergeLabel(l, Some(second), None, None);
            u.name == second && u.slug == MakeSlug(first)
  {
  }

  lemma DeleteKeepsKeys(rows: seq<Label>, nextId: int, k: nat)
    requires IdsUnique(rows) && IdsBelow(rows, nextId) && k < |rows|
    ensures IdsUnique(rows[..k] + rows[k + 1..]) && IdsBelow(rows[..k] + rows[k + 1..], nextId)
    ensures forall l :: l in rows[..k] + rows[k + 1..] <==> l in rows && l.id != rows[k].id
  {
    var s := rows[..k] + rows[k + 1..];
    assert forall i :: 0 <= i < |s| ==> s[i] == (if i < k then rows[i] else rows[i + 1]);
    forall l | l in rows && l.id != rows[k].id
      ensures l in s
    {
      var i :| 0 <= i < |rows| && rows[i] == l;
      assert i != k;
      if i < k { assert s[i] == l; } else { assert s[i - 1] == l; }
    }
  }

  /** One of the two tables. */
  class LabelTable {
    var rows: seq<Label>
    var nextId: int

    ghost predicate Valid()
      reads this
    {
      IdsUnique(rows) && IdsBelow(rows, nextId)
    }

    constructor ()
      ensures Valid() && rows == []
    {
      rows := [];
      nextId := 1;
    }

    /** `getCategories` / `getBrands`: every row, by name ascending. */
    function List(): (r: seq<Label>)
      reads this
      ensures SortedByName(r)
      ensures multiset(r) == multiset(rows)
    {
      SortByName(rows)
    }

    /** `getCategoryById` / `getBrandById`. */
    function GetById(id: string): (r: Result<Label, Error>)
      reads this
      ensures ParseInt(id).None? ==> r == Err(ServerError)
      ensures ParseInt(id).Some? ==>
                (r.Ok? <==> exists l :: l in rows && l.id == ParseInt(id).value)
                && (r.Ok? ==> r.value in rows && r.value.id == ParseInt(id).value)
                && (r.Err? ==> r.error == NotFound)
    {
      match ParseInt(id)
      case None => Err(ServerError)
      case Some(key) =>
        match FindLabel(rows, key)
        case None => Err(NotFound)
        case Some(k) => Ok(rows[k])
    }

    /** `createCategory` / `createBrand`: appends the new row under the next id. */
    method Create(name: Option<string>, text: Option<string>, upload: Option<string>) returns (r: Result<Label, Error>)
      requires Valid()
      modifies this
      ensures Valid()
      ensures r == NewLabel(old(nextId), name, text, upload)
      ensures r.Ok? ==> rows == old(rows) + [r.value] && nextId == old(nextId) + 1
      ensures r.Err? ==> rows == old(rows) && nextId == old(nextId)
    {
      r := NewLabel(nextId, name, text, upload);
      if r.Ok? {
        rows := rows + [r.value];
        nextId := nextId + 1;
      }
    }

    /** `updateCategory` / `updateBrand`: NotFound for an unknown id; otherwise
        the row is merged with the request and every other row is kept. */
    method Update(id: string, name: Option<string>, text: Option<string>, upload: Option<string>)
      returns (r: Result<Label, Error>)
      requires Valid()
      modifies this
      ensures Valid() && nextId == old(nextId)
      ensures ParseInt(id).None? ==> r == Err(ServerError)
      ensures ParseInt(id).Some? && FindLabel(old(rows), ParseInt(id).value).None? ==> r == Err(NotFound)
      ensures ParseInt(id).Some? && FindLabel(old(rows), ParseInt(id).value).Some? ==>
        var k := FindLabel(old(rows), ParseInt(id).value).value;
        r == Ok(MergeLabel(old(rows)[k], name, text, upload)) && rows == old(rows)[k := r.value]
      ensures r.Err? ==> rows == old(rows)
    {
      var key := ParseInt(id);
      if key.None? {
        return Err(ServerError);
      }
      var found := FindLabel(rows, key.value);
      if found.None? {
        return Err(NotFound);
      }
      var k := found.value;
      var updated := MergeLabel(rows[k], name, text, upload);
      assert forall i :: 0 <= i < |rows| ==> rows[k := updated][i].id == rows[i].id;
      rows := rows[k := updated];
      r := Ok(updated);
    }

    /** `deleteCategory` / `deleteBrand`: NotFound for an unknown id; otherwise
        exactly that row goes. */
    method Delete(id: string) returns (r: Result<(), Error>)
      requires Valid()
      modifies this
      ensures Valid() && nextId == old(nextId)
      ensures ParseInt(id).None? ==> r == Err(ServerError)
      ensures ParseInt(id).Some? ==>
        (r.Ok? <==> exists l :: l in old(rows) && l.id == ParseInt(id).value)
        && (r.Err? ==> r.error == NotFound)
        && (r.Ok? ==> forall l :: l in rows <==> l in old(rows) && l.id != ParseInt(id).value)
      ensures r.Err? ==> rows == old(rows)
    {
      var key := ParseInt(id);
      if key.None? {
        return Err(ServerError);
      }
      var found := FindLabel(rows, key.value);
      if found.None? {
        return Err(NotFound);
      }
      var k := found.value;
      DeleteKeepsKeys(rows, nextId, k);
      rows := rows[..k] + rows[k + 1..];
      r := Ok(());
    }
  }
}
