/** Questions, the admin form that builds them, and the question bank: a map
    from category name to the ordered list of that category's questions, which
    the admin page changes in place (quizBank push, splice and delete). */
module Questions {
  import opened Common

  /** A stored question: the text `q`, the option texts `opts`, the correct
      option `a`, its points and an optional hint ("" when absent). */
  datatype Question = Question(text: string, options: seq<string>, answer: int, points: int, hint: string)

  /** Every question has four options (A-D). */
  const OptionCount := 4
  /** Points given to a question whose points field is missing, not a number or 0. */
  const DefaultPoints := 10

  /** What the engine relies on: four options and a correct index among them. */
  predicate WellFormed(q: Question) {
    |q.options| == OptionCount && 0 <= q.answer < OptionCount
  }

  type Bank = map<string, seq<Question>>

  /** The properties every plain JavaScript object inherits from
      Object.prototype. Looking one of them up in the bank object yields a
      truthy value, so the "already exists" test treats them as existing. */
  const InheritedNames: set<string> := {
    "constructor", "hasOwnProperty", "isPrototypeOf", "propertyIsEnumerable",
    "toLocaleString", "toString", "valueOf", "__proto__",
    "__defineGetter__", "__defineSetter__", "__lookupGetter__", "__lookupSetter__"
  }

  /** Category names are non-empty and every stored question is well formed. */
  predicate ValidBank(m: Bank) {
    forall c :: c in m ==> c != "" && forall q :: q in m[c] ==> WellFormed(q)
  }

  /** The bank the application ships with, used when nothing is stored. */
  function BuiltInBank(): (m: Bank)
    ensures ValidBank(m)
    ensures m.Keys == {"General", "Math"} && |m["General"]| == 2 && |m["Math"]| == 1
  {
    map[
      "General" := [
        Question("Which language runs in a web browser?",
                 ["Java", "C", "Python", "JavaScript"], 3, 10, "It's the language of the web."),
        Question("What does CSS stand for?",
                 ["Computer Style Sheets", "Cascading Style Sheets", "Creative Style Syntax", "Code Styling System"],
                 1, 10, "Think cascading.")
      ],
      "Math" := [
        Question("What is 7 * 8?", ["54", "56", "58", "63"], 1, 8, "7*8=56")
      ]
    ]
  }

  /** The admin question form after trimming: the four option fields, and the
      correct index and points as parseInt read them (None for NaN). */
  datatype QuestionForm = QuestionForm(
    text: string, opt1: string, opt2: string, opt3: string, opt4: string,
    correctIndex: Option<int>, points: Option<int>, hint: string)

  datatype FormError = MissingField | BadCorrectIndex

  /** `parseInt(...) || 10`: NaN and 0 are both falsy and fall back to the default. */
  function PointsOf(raw: Option<int>): (p: int)
    ensures p == DefaultPoints <==> raw == None || raw == Some(0) || raw == Some(DefaultPoints)
    ensures raw.Some? && raw.value != 0 ==> p == raw.value
  {
    match raw
    case None => DefaultPoints
    case Some(n) => if n == 0 then DefaultPoints else n
  }

  /** getQuestionFromForm: refuses a form with an empty text or option first,
      then one whose correct index is not a number in 0..3. */
  function QuestionFromForm(f: QuestionForm): (r: Result<Question, FormError>)
    ensures r == Failure(MissingField) <==>
              f.text == "" || f.opt1 == "" || f.opt2 == "" || f.opt3 == "" || f.opt4 == ""
    ensures r == Failure(BadCorrectIndex) <==>
              f.text != "" && f.opt1 != "" && f.opt2 != "" && f.opt3 != "" && f.opt4 != "" &&
              (f.correctIndex == None || f.correctIndex.value < 0 || f.correctIndex.value > 3)
    ensures r.Success? ==>
              WellFormed(r.value) && Some(r.value.answer) == f.correctIndex &&
              r.value.text == f.text && r.value.hint == f.hint &&
              r.value.options == [f.opt1, f.opt2, f.opt3, f.opt4] &&
              (forall o :: o in r.value.options ==> o != "") &&
              r.value.points == PointsOf(f.points)
  {
    if f.text == "" || f.opt1 == "" || f.opt2 == "" || f.opt3 == "" || f.opt4 == "" then
      Failure(MissingField)
    else if f.correctIndex.None? || f.correctIndex.value < 0 || f.correctIndex.value > 3 then
      Failure(BadCorrectIndex)
    else
      Success(Question(f.text, [f.opt1, f.opt2, f.opt3, f.opt4], f.correctIndex.value,
                       PointsOf(f.points), f.hint))
  }

  /** The ways an admin action on the bank is refused. UnknownCategory stands
      for the TypeError the source raises when the category key is absent. */
  datatype BankError =
    | EmptyName
    | DuplicateCategory
    | NoCategorySelected
    | NoQuestionSelected
    | NoQuestionLoaded
    | UnknownCategory
    | StaleIndex
    | InvalidForm(reason: FormError)

  class QuestionBank {
    var categories: Bank

    ghost predicate Valid()
      reads this
    {
      ValidBank(categories)
    }

    /** loadBank: the stored bank, or the built-in one when nothing is stored. */
    constructor (stored: Option<Bank>)
      requires stored.Some? ==> ValidBank(stored.value)
      ensures Valid()
      ensures categories == if stored.Some? then stored.value else BuiltInBank()
    {
      categories := if stored.Some? then stored.value else BuiltInBank();
    }

    /** Add a category: refuses an empty name, and a name the bank object
        already answers to (its own categories and the inherited names), else
        creates it empty. */
    method AddCategory(name: string) returns (r: Outcome<BankError>)
      requires Valid()
      modifies this
      ensures Valid()
      ensures r == Fail(EmptyName) <==> name == ""
      ensures r == Fail(DuplicateCategory) <==>
                name != "" && (name in old(categories) || name in InheritedNames)
      ensures r.Pass? ==> categories == old(categories)[name := []]
      ensures r.Fail? ==> categories == old(categories)
    {
      if name == "" {
        return Fail(EmptyName);
      }
      if name in categories || name in InheritedNames {
        return Fail(DuplicateCategory);
      }
      categories := categories[name := []];
      r := Pass;
    }

    /** Delete a category and all of its questions. */
    method DeleteCategory(name: string) returns (r: Outcome<BankError>)
      requires Valid()
      modifies this
      ensures Valid()
      ensures r.Fail? <==> name == ""
      ensures r.Fail? ==> r.error == NoCategorySelected && categories == old(categories)
      ensures r.Pass? ==> categories == old(categories) - {name} && name !in categories
    {
      if name == "" {
        return Fail(NoCategorySelected);
      }
      categories := categories - {name};
      r := Pass;
    }

    /** Append the question built from the form to the selected category. */
    method AddQuestion(category: string, form: QuestionForm) returns (r: Outcome<BankError>)
      requires Valid()
      modifies this
      ensures Valid()
      ensures r.Pass? <==>
                category != "" && QuestionFromForm(form).Success? && category in old(categories)
      ensures r.Pass? ==>
                categories == old(categories)[category := old(categories)[category] + [QuestionFromForm(form).value]]
      ensures r.Fail? ==> categories == old(categories)
      ensures category != "" && QuestionFromForm(form).Failure? ==>
                r == Fail(InvalidForm(QuestionFromForm(form).error))
    {
      if category == "" {
        return Fail(NoCategorySelected);
      }
      var q := QuestionFromForm(form);
      if q.Failure? {
        return Fail(InvalidForm(q.error));
      }
      if category !in categories {
        return Fail(UnknownCategory);
      }
      categories := categories[category := categories[category] + [q.value]];
      r := Pass;
    }

    /** Replace the loaded question (category and index remembered by "Load").
        Assigning at the length appends, as a JavaScript array assignment does. */
    method EditQuestion(category: string, index: Option<nat>, form: QuestionForm) returns (r: Outcome<BankError>)
      requires Valid()
      modifies this
      ensures Valid()
      ensures (category == "" || index == None) <==> r == Fail(NoQuestionLoaded)
      ensures r.Pass? <==>
                category != "" && index.Some? && QuestionFromForm(form).Success? &&
                category in old(categories) && index.value <= |old(categories)[category]|
      ensures r.Pass? && index.value < |old(categories)[category]| ==>
                categories == old(categories)[category := old(categories)[category][index.value := QuestionFromForm(form).value]]
      ensures r.Pass? && index.value == |old(categories)[category]| ==>
                categories == old(categories)[category := old(categories)[category] + [QuestionFromForm(form).value]]
      ensures r.Fail? ==> categories == old(categories)
    {
      if category == "" || index.None? {
        return Fail(NoQuestionLoaded);
      }
      var q := QuestionFromForm(form);
      if q.Failure? {
        return Fail(InvalidForm(q.error));
      }
      if category !in categories {
        return Fail(UnknownCategory);
      }
      var qs := categories[category];
      var i := index.value;
      if i < |qs| {
        categories := categories[category := qs[i := q.value]];
      } else if i == |qs| {
        categories := categories[category := qs + [q.value]];
      } else {
        return Fail(StaleIndex);
      }
      r := Pass;
    }

    /** Delete the selected question: splice(index, 1), which removes nothing
        when the index is past the end. */
    method DeleteQuestion(category: string, index: Option<nat>) returns (r: Outcome<BankError>)
      requires Valid()
      modifies this
      ensures Valid()
      ensures r.Pass? <==> category != "" && index.Some? && category in old(categories)
      ensures r.Fail? ==> categories == old(categories)
      ensures r.Pass? && index.value < |old(categories)[category]| ==>
                categories == old(categories)[category := RemoveAt(old(categories)[category], index.value)]
      ensures r.Pass? && index.value >= |old(categories)[category]| ==> categories == old(categories)
    {
      if category == "" || index.None? {
        return Fail(NoQuestionSelected);
      }
      if category !in categories {
        return Fail(UnknownCategory);
      }
      var qs := categories[category];
      if index.value < |qs| {
        categories := categories[category := RemoveAt(qs, index.value)];
      }
      r := Pass;
    }
  }
}
