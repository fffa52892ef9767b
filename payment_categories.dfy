/**
 * The payment-modes administration page: a table of payment categories and a table of
 * payment methods, each method belonging to one category. New rows are numbered after the
 * rows already there (per category for methods); edits touch only code and label; a
 * switch flips a row's activity.
 *
 * The two tables the page reads and writes are held in memory as `categories` and `methods`.
 */
module PaymentTables {
  import opened Optional
  import opened Text

  datatype Category = Category(id: string, code: string, labelText: string, isActive: bool, sortOrder: int)

  datatype PaymentMethod = PaymentMethod(
    id: string, code: string, labelText: string, categoryId: string, isActive: bool, sortOrder: int)

  /** A category or method form. */
  datatype CodeLabel = CodeLabel(code: string, labelText: string)

  /** Which table a switch belongs to. */
  datatype TableKind = CategoryTable | MethodTable

  const EmptyForm := CodeLabel([], [])

  /** The activity flag the tables give a new row; the inserts do not set it. */
  const DefaultActive := true

  /** Both fields are filled in: neither is empty or white space only. */
  predicate Filled(form: CodeLabel) {
    !AllSpace(form.code) && !AllSpace(form.labelText)
  }

  /** `Filled` is the save guard `form.code.trim() && form.label.trim()`. */
  lemma FilledIsTrimGuard(form: CodeLabel)
    ensures Filled(form) <==> Trim(form.code) != [] && Trim(form.labelText) != []
  {
  }

  /** `selectedCatId` is set: neither null nor empty. */
  predicate CategorySelected(selected: Option<string>) {
    selected.Some? && selected.value != []
  }

  predicate DistinctCategoryIds(s: seq<Category>) {
    forall i, j :: 0 <= i < j < |s| ==> s[i].id != s[j].id
  }

  predicate DistinctMethodIds(s: seq<PaymentMethod>) {
    forall i, j :: 0 <= i < j < |s| ==> s[i].id != s[j].id
  }

  /** `methods.filter(m => m.category_id === catId)`: the methods of one category, in order. */
  function MethodsOf(methods: seq<PaymentMethod>, catId: string): (r: seq<PaymentMethod>)
    ensures |r| <= |methods|
  {
    if methods == [] then []
    else MethodsOf(methods[..|methods| - 1], catId)
         + (if methods[|methods| - 1].categoryId == catId then [methods[|methods| - 1]] else [])
  }

  /** A category's method list holds exactly the methods that name that category. */
  lemma {:induction false} MethodsOfMembers(methods: seq<PaymentMethod>, catId: string)
    ensures forall m :: m in MethodsOf(methods, catId) <==> m in methods && m.categoryId == catId
  {
    if methods != [] {
      MethodsOfMembers(methods[..|methods| - 1], catId);
      assert methods == methods[..|methods| - 1] + [methods[|methods| - 1]];
    }
  }

  /**
   * The row a category insert creates: the form's code and label under the fresh id, active
   * by default, numbered after every existing category.
   */
  function NewCategory(id: string, form: CodeLabel, categories: seq<Category>): (c: Category)
    ensures c.id == id && CodeLabel(c.code, c.labelText) == form && c.isActive == DefaultActive
    ensures c.sortOrder == |categories| + 1
  {
    Category(id, form.code, form.labelText, DefaultActive, |categories| + 1)
  }

  /**
   * The row a method insert creates: the form's code and label under the fresh id, in the
   * selected category, active by default, numbered after the methods of that category.
   */
  function NewMethod(id: string, form: CodeLabel, catId: string, methods: seq<PaymentMethod>): (m: PaymentMethod)
    ensures m.id == id && CodeLabel(m.code, m.labelText) == form && m.isActive == DefaultActive
    ensures m.categoryId == catId && m.sortOrder == |MethodsOf(methods, catId)| + 1
  {
    PaymentMethod(id, form.code, form.labelText, catId, DefaultActive, |MethodsOf(methods, catId)| + 1)
  }

  /** The update of code and label of the category with id `id`. */
  function RenameCategory(categories: seq<Category>, id: string, form: CodeLabel): (r: seq<Category>)
    ensures |r| == |categories|
    ensures forall i :: 0 <= i < |r| ==>
              r[i].id == categories[i].id && r[i].isActive == categories[i].isActive
              && r[i].sortOrder == categories[i].sortOrder
    ensures forall i :: 0 <= i < |r| ==>
              if categories[i].id == id then r[i].code == form.code && r[i].labelText == form.labelText
              else r[i] == categories[i]
  {
    seq(|categories|, i requires 0 <= i < |categories| =>
      if categories[i].id == id then categories[i].(code := form.code, labelText := form.labelText) else categories[i])
  }

  /** The update of code and label of the method with id `id`; its category stays. */
  function RenameMethod(methods: seq<PaymentMethod>, id: string, form: CodeLabel): (r: seq<PaymentMethod>)
    ensures |r| == |methods|
    ensures forall i :: 0 <= i < |r| ==>
              r[i].id == methods[i].id && r[i].isActive == methods[i].isActive
              && r[i].sortOrder == methods[i].sortOrder && r[i].categoryId == methods[i].categoryId
    ensures forall i :: 0 <= i < |r| ==>
              if methods[i].id == id then r[i].code == form.code && r[i].labelText == form.labelText
              else r[i] == methods[i]
  {
    seq(|methods|, i requires 0 <= i < |methods| =>
      if methods[i].id == id then methods[i].(code := form.code, labelText := form.labelText) else methods[i])
  }

  /** The `is_active` write of the category with id `id`. */
  function SetCategoryActive(categories: seq<Category>, id: string, active: bool): (r: seq<Category>)
    ensures |r| == |categories|
    ensures forall i :: 0 <= i < |r| ==>
              r[i] == if categories[i].id == id then categories[i].(isActive := active) else categories[i]
  {
    seq(|categories|, i requires 0 <= i < |categories| =>
      if categories[i].id == id then categories[i].(isActive := active) else categories[i])
  }

  /** The `is_active` write of the method with id `id`. */
  function SetMethodActive(methods: seq<PaymentMethod>, id: string, active: bool): (r: seq<PaymentMethod>)
    ensures |r| == |methods|
    ensures forall i :: 0 <= i < |r| ==>
              r[i] == if methods[i].id == id then methods[i].(isActive := active) else methods[i]
  {
    seq(|methods|, i requires 0 <= i < |methods| =>
      if methods[i].id == id then methods[i].(isActive := active) else methods[i])
  }

  /** Methods numbered 1, 2, ... in list order. */
  predicate NumberedMethods(s: seq<PaymentMethod>) {
    forall i :: 0 <= i < |s| ==> s[i].sortOrder == i + 1
  }

  /** Categories numbered 1, 2, ... in list order. */
  predicate NumberedCategories(s: seq<Category>) {
    forall i :: 0 <= i < |s| ==> s[i].sortOrder == i + 1
  }

  /** Appending a category keeps the numbering 1, 2, ... without gaps. */
  lemma CategoryInsertKeepsNumbering(categories: seq<Category>, id: string, form: CodeLabel)
    requires NumberedCategories(categories)
    ensures NumberedCategories(categories + [NewCategory(id, form, categories)])
  {
    var r := categories + [NewCategory(id, form, categories)];
    forall i | 0 <= i < |r| ensures r[i].sortOrder == i + 1 {
      if i < |categories| {
        assert r[i] == categories[i];
      }
    }
  }

  /**
   * Appending a method to a category keeps that category's numbering 1, 2, ... without gaps,
   * and leaves every other category's method list as it was.
   */
  lemma MethodInsertKeepsNumbering(methods: seq<PaymentMethod>, id: string, form: CodeLabel, catId: string)
    requires NumberedMethods(MethodsOf(methods, catId))
    ensures NumberedMethods(MethodsOf(methods + [NewMethod(id, form, catId, methods)], catId))
    ensures forall other :: other != catId ==>
              MethodsOf(methods + [NewMethod(id, form, catId, methods)], other) == MethodsOf(methods, other)
  {
    var m := NewMethod(id, form, catId, methods);
    var r := methods + [m];
    assert r[..|r| - 1] == methods;
    var mine := MethodsOf(r, catId);
    assert mine == MethodsOf(methods, catId) + [m];
    forall i | 0 <= i < |mine| ensures mine[i].sortOrder == i + 1 {
      if i < |mine| - 1 {
        assert mine[i] == MethodsOf(methods, catId)[i];
      }
    }
  }

  lemma RenameAppend(a: seq<PaymentMethod>, b: seq<PaymentMethod>, id: string, form: CodeLabel)
    ensures RenameMethod(a + b, id, form) == RenameMethod(a, id, form) + RenameMethod(b, id, form)
  {
    var l, r := RenameMethod(a + b, id, form), RenameMethod(a, id, form) + RenameMethod(b, id, form);
    forall i | 0 <= i < |l| ensures l[i] == r[i] {
      if i < |a| {
        assert (a + b)[i] == a[i];
      } else {
        assert (a + b)[i] == b[i - |a|];
      }
    }
  }

  /** Renaming a method commutes with listing a category's methods. */
  lemma {:induction false} RenameKeepsCategoryLists(methods: seq<PaymentMethod>, id: string, form: CodeLabel,
                                                    catId: string)
    ensures MethodsOf(RenameMethod(methods, id, form), catId) == RenameMethod(MethodsOf(methods, catId), id, form)
  {
    if methods != [] {
      var n := |methods|;
      var init, last := methods[..n - 1], methods[n - 1];
      assert methods == init + [last];
      RenameAppend(init, [last], id, form);
      var r := RenameMethod(methods, id, form);
      assert r[..n - 1] == RenameMethod(init, id, form);
      RenameKeepsCategoryLists(init, id, form, catId);
      var tail := if last.categoryId == catId then [last] else [];
      RenameAppend(MethodsOf(init, catId), tail, id, form);
    }
  }

  /** An edit changes no category's method numbering. */
  lemma RenameKeepsNumbering(methods: seq<PaymentMethod>, id: string, form: CodeLabel, catId: string)
    requires NumberedMethods(MethodsOf(methods, catId))
    ensures NumberedMethods(MethodsOf(RenameMethod(methods, id, form), catId))
  {
    RenameKeepsCategoryLists(methods, id, form, catId);
  }

  /** Toggling twice from the value shown gives the table back. */
  lemma ToggleCategoryTwice(categories: seq<Category>, id: string, shown: bool)
    requires forall c :: c in categories && c.id == id ==> c.isActive == shown
    ensures SetCategoryActive(SetCategoryActive(categories, id, !shown), id, shown) == categories
  {
    var r := SetCategoryActive(SetCategoryActive(categories, id, !shown), id, shown);
    forall i | 0 <= i < |categories| ensures r[i] == categories[i] {
      if categories[i].id == id {
        assert categories[i] in categories;
      }
    }
  }

  /** Toggling twice from the value shown gives the table back. */
  lemma ToggleMethodTwice(methods: seq<PaymentMethod>, id: string, shown: bool)
    requires forall m :: m in methods && m.id == id ==> m.isActive == shown
    ensures SetMethodActive(SetMethodActive(methods, id, !shown), id, shown) == methods
  {
    var r := SetMethodActive(SetMethodActive(methods, id, !shown), id, shown);
    forall i | 0 <= i < |methods| ensures r[i] == methods[i] {
      if methods[i].id == id {
        assert methods[i] in methods;
      }
    }
  }

  /** The category table after a save: the edited category renamed, or a new one appended. */
  function SavedCategories(categories: seq<Category>, editing: Option<Category>, form: CodeLabel,
                           newId: string): (r: seq<Category>)
    ensures editing.Some? ==> |r| == |categories|
    ensures editing.None? ==> |r| == |categories| + 1 && r[..|categories|] == categories
  {
    if editing.Some? then RenameCategory(categories, editing.value.id, form)
    else categories + [NewCategory(newId, form, categories)]
  }

  /** The method table after a save: the edited method renamed, or a new one appended to `catId`. */
  function SavedMethods(methods: seq<PaymentMethod>, editing: Option<PaymentMethod>, form: CodeLabel,
                        catId: string, newId: string): (r: seq<PaymentMethod>)
    ensures editing.Some? ==> |r| == |methods|
    ensures editing.None? ==> |r| == |methods| + 1 && r[..|methods|] == methods
  {
    if editing.Some? then RenameMethod(methods, editing.value.id, form)
    else methods + [NewMethod(newId, form, catId, methods)]
  }

  /** A save with a fresh id for the insert keeps category ids unique. */
  lemma CategorySaveKeepsIds(categories: seq<Category>, editing: Option<Category>, form: CodeLabel,
                             newId: string)
    requires DistinctCategoryIds(categories)
    requires forall c :: c in categories ==> c.id != newId
    ensures DistinctCategoryIds(SavedCategories(categories, editing, form, newId))
  {
    var r := SavedCategories(categories, editing, form, newId);
    if editing.Some? {
      assert forall i :: 0 <= i < |r| ==> r[i].id == categories[i].id;
    } else {
      forall i, j | 0 <= i < j < |r| ensures r[i].id != r[j].id {
        assert r[i] == categories[i] && categories[i] in categories;
      }
    }
  }

  /** A save with a fresh id for the insert keeps method ids unique. */
  lemma MethodSaveKeepsIds(methods: seq<PaymentMethod>, editing: Option<PaymentMethod>, form: CodeLabel,
                           catId: string, newId: string)
    requires DistinctMethodIds(methods)
    requires forall m :: m in methods ==> m.id != newId
    ensures DistinctMethodIds(SavedMethods(methods, editing, form, catId, newId))
  {
    var r := SavedMethods(methods, editing, form, catId, newId);
    if editing.Some? {
      assert forall i :: 0 <= i < |r| ==> r[i].id == methods[i].id;
    } else {
      forall i, j | 0 <= i < j < |r| ensures r[i].id != r[j].id {
        assert r[i] == methods[i] && methods[i] in methods;
      }
    }
  }

  class PaymentModesPage {
    var categories: seq<Category>
    var methods: seq<PaymentMethod>
    var editingCat: Option<Category>
    var editingMethod: Option<PaymentMethod>
    var selectedCatId: Option<string>
    var catForm: CodeLabel
    var methodForm: CodeLabel
    var showCatDialog: bool
    var showMethodDialog: bool

    /** Row ids are unique in each table. */
    ghost predicate Valid()
      reads this
    {
      DistinctCategoryIds(categories) && DistinctMethodIds(methods)
    }

    /** The page with the loaded tables, empty forms and nothing being edited. */
    constructor (loadedCategories: seq<Category>, loadedMethods: seq<PaymentMethod>)
      requires DistinctCategoryIds(loadedCategories) && DistinctMethodIds(loadedMethods)
      ensures Valid()
      ensures categories == loadedCategories && methods == loadedMethods
      ensures editingCat == None && editingMethod == None && selectedCatId == None
      ensures catForm == EmptyForm && methodForm == EmptyForm && !showCatDialog && !showMethodDialog
    {
      categories := loadedCategories;
      methods := loadedMethods;
      editingCat := None;
      editingMethod := None;
      selectedCatId := None;
      catForm := EmptyForm;
      methodForm := EmptyForm;
      showCatDialog := false;
      showMethodDialog := false;
    }

    /** The "+ Catégorie" button: a blank category form. */
    method OpenNewCategory()
      modifies this
      ensures editingCat == None && catForm == EmptyForm && showCatDialog
      ensures categories == old(categories) && methods == old(methods) && editingMethod == old(editingMethod)
      ensures selectedCatId == old(selectedCatId) && methodForm == old(methodForm)
      ensures showMethodDialog == old(showMethodDialog)
    {
      editingCat := None;
      catForm := EmptyForm;
      showCatDialog := true;
    }

    /** A category's edit button: the form filled from that category. */
    method OpenEditCategory(cat: Category)
      modifies this
      ensures editingCat == Some(cat) && catForm == CodeLabel(cat.code, cat.labelText) && showCatDialog
      ensures categories == old(categories) && methods == old(methods) && editingMethod == old(editingMethod)
      ensures selectedCatId == old(selectedCatId) && methodForm == old(methodForm)
      ensures showMethodDialog == old(showMethodDialog)
    {
      editingCat := Some(cat);
      catForm := CodeLabel(cat.code, cat.labelText);
      showCatDialog := true;
    }

    /** A category's "+ Méthode" button: a blank method form for that category. */
    method OpenNewMethod(catId: string)
      modifies this
      ensures selectedCatId == Some(catId) && editingMethod == None && methodForm == EmptyForm && showMethodDialog
      ensures categories == old(categories) && methods == old(methods) && editingCat == old(editingCat)
      ensures catForm == old(catForm) && showCatDialog == old(showCatDialog)
    {
      selectedCatId := Some(catId);
      editingMethod := None;
      methodForm := EmptyForm;
      showMethodDialog := true;
    }

    /** A method's edit button: the form filled from that method. */
    method OpenEditMethod(catId: string, m: PaymentMethod)
      modifies this
      ensures selectedCatId == Some(catId) && editingMethod == Some(m)
      ensures methodForm == CodeLabel(m.code, m.labelText) && showMethodDialog
      ensures categories == old(categories) && methods == old(methods) && editingCat == old(editingCat)
      ensures catForm == old(catForm) && showCatDialog == old(showCatDialog)
    {
      selectedCatId := Some(catId);
      editingMethod := Some(m);
      methodForm := CodeLabel(m.code, m.labelText);
      showMethodDialog := true;
    }

    /** The category dialog's two inputs. */
    method EditCategoryForm(form: CodeLabel)
      modifies this
      ensures catForm == form
      ensures categories == old(categories) && methods == old(methods) && editingCat == old(editingCat)
      ensures editingMethod == old(editingMethod) && selectedCatId == old(selectedCatId)
      ensures methodForm == old(methodForm) && showCatDialog == old(showCatDialog)
      ensures showMethodDialog == old(showMethodDialog)
    {
      catForm := form;
    }

    /** The method dialog's two inputs. */
    method EditMethodForm(form: CodeLabel)
      modifies this
      ensures methodForm == form
      ensures categories == old(categories) && methods == old(methods) && editingCat == old(editingCat)
      ensures editingMethod == old(editingMethod) && selectedCatId == old(selectedCatId)
      ensures catForm == old(catForm) && showCatDialog == old(showCatDialog)
      ensures showMethodDialog == old(showMethodDialog)
    {
      methodForm := form;
    }

    /** The category dialog's `onOpenChange`: opens or closes it, leaving the form as it is. */
    method SetCategoryDialogOpen(open: bool)
      modifies this
      ensures showCatDialog == open
      ensures categories == old(categories) && methods == old(methods) && editingCat == old(editingCat)
      ensures editingMethod == old(editingMethod) && selectedCatId == old(selectedCatId)
      ensures catForm == old(catForm) && methodForm == old(methodForm)
      ensures showMethodDialog == old(showMethodDialog)
    {
      showCatDialog := open;
    }

    /** The method dialog's `onOpenChange`: opens or closes it, leaving the form as it is. */
    method SetMethodDialogOpen(open: bool)
      modifies this
      ensures showMethodDialog == open
      ensures categories == old(categories) && methods == old(methods) && editingCat == old(editingCat)
      ensures editingMethod == old(editingMethod) && selectedCatId == old(selectedCatId)
      ensures catForm == old(catForm) && methodForm == old(methodForm)
      ensures showCatDialog == old(showCatDialog)
    {
      showMethodDialog := open;
    }

    /**
     * `handleSaveCat`: does nothing when code or label is blank. Otherwise renames the edited
     * category, or appends a new one numbered after all the others, then clears the form and
     * the edited category and closes the dialog. The method table is never touched.
     */
    method HandleSaveCat(newId: string) returns (saved: bool)
      requires Valid()
      requires forall c :: c in categories ==> c.id != newId
      modifies this
      ensures Valid()
      ensures saved == Filled(old(catForm))
      ensures !saved ==>
                categories == old(categories) && catForm == old(catForm)
                && editingCat == old(editingCat) && showCatDialog == old(showCatDialog)
      ensures saved ==> categories == SavedCategories(old(categories), old(editingCat), old(catForm), newId)
      ensures saved ==> catForm == EmptyForm && editingCat == None && !showCatDialog
      ensures methods == old(methods) && editingMethod == old(editingMethod)
      ensures selectedCatId == old(selectedCatId) && methodForm == old(methodForm)
      ensures showMethodDialog == old(showMethodDialog)
    {
      if !Filled(catForm) {
        return false;
      }
      CategorySaveKeepsIds(categories, editingCat, catForm, newId);
      categories := SavedCategories(categories, editingCat, catForm, newId);
      saved := true;
      showCatDialog := false;
      catForm := EmptyForm;
      editingCat := None;
    }

    /**
     * `handleSaveMethod`: does nothing when code or label is blank or no category is
     * selected. Otherwise renames the edited method (its category stays), or appends a new
     * method to the selected category numbered after that category's methods, then clears
     * the form and the edited method and closes the dialog. The category table is never touched.
     */
    method HandleSaveMethod(newId: string) returns (saved: bool)
      requires Valid()
      requires forall m :: m in methods ==> m.id != newId
      modifies this
      ensures Valid()
      ensures saved == (Filled(old(methodForm)) && CategorySelected(old(selectedCatId)))
      ensures !saved ==>
                methods == old(methods) && methodForm == old(methodForm)
                && editingMethod == old(editingMethod) && showMethodDialog == old(showMethodDialog)
      ensures saved ==>
                methods == SavedMethods(old(methods), old(editingMethod), old(methodForm),
                                        old(selectedCatId).value, newId)
      ensures saved ==> methodForm == EmptyForm && editingMethod == None && !showMethodDialog
      ensures categories == old(categories) && editingCat == old(editingCat)
      ensures selectedCatId == old(selectedCatId) && catForm == old(catForm)
      ensures showCatDialog == old(showCatDialog)
    {
      if !Filled(methodForm) || !CategorySelected(selectedCatId) {
        return false;
      }
      MethodSaveKeepsIds(methods, editingMethod, methodForm, selectedCatId.value, newId);
      methods := SavedMethods(methods, editingMethod, methodForm, selectedCatId.value, newId);
      saved := true;
      showMethodDialog := false;
      methodForm := EmptyForm;
      editingMethod := None;
    }

    /** `toggleActive`: writes the negation of the value shown to the one row of the chosen table. */
    method ToggleActive(kind: TableKind, id: string, current: bool)
      requires Valid()
      modifies this
      ensures Valid()
      ensures kind == CategoryTable ==>
                categories == SetCategoryActive(old(categories), id, !current) && methods == old(methods)
      ensures kind == MethodTable ==>
                methods == SetMethodActive(old(methods), id, !current) && categories == old(categories)
      ensures editingCat == old(editingCat) && editingMethod == old(editingMethod)
      ensures selectedCatId == old(selectedCatId) && catForm == old(catForm) && methodForm == old(methodForm)
      ensures showCatDialog == old(showCatDialog) && showMethodDialog == old(showMethodDialog)
    {
      if kind == CategoryTable {
        var r := SetCategoryActive(categories, id, !current);
        assert forall i :: 0 <= i < |r| ==> r[i].id == categories[i].id;
        categories := r;
      } else {
        var r := SetMethodActive(methods, id, !current);
        assert forall i :: 0 <= i < |r| ==> r[i].id == methods[i].id;
        methods := r;
      }
    }
  }
}
