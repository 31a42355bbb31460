/** `userValidationRules`, run before `registerUser`. */
module RegisterValidator {
  import opened Wrappers
  import opened Requests
  import opened Validation

  function Rules(body: Form, checks: Checks): seq<Rule>
  {
    [ Rule(NotEmpty(body.username), "Username is required"),
      Rule(LengthIn(body.username, 4, 12), "Username must be between 4 and 12 characters long"),
      Rule(NotEmpty(body.email), "Email is required"),
      Rule(checks.isEmail(Text(body.email)), "Must be a valid email address"),
      Rule(NotEmpty(body.password), "Password is required"),
      Rule(LengthIn(body.password, 4, 12), "Password must be between 4 and 12 characters long"),
      Rule(HasAsciiLetter(Text(body.password)), "Password must include at least one letter"),
      Rule(NotEmpty(body.confirmPassword), "Password confirmation is required"),
      Rule(body.confirmPassword == body.password, "Passwords do not match") ]
  }

  /** An acceptable registration form, field by field. */
  predicate Acceptable(body: Form, checks: Checks)
  {
    && body.username.Some? && 4 <= |body.username.value| <= 12
    && body.email.Some? && body.email.value != "" && checks.isEmail(body.email.value)
    && body.password.Some? && 4 <= |body.password.value| <= 12 && HasAsciiLetter(body.password.value)
    && body.confirmPassword.Some? && body.confirmPassword == body.password
  }

  /** The messages the rule list reports: none exactly for an acceptable form. */
  function Errors(body: Form, checks: Checks): (msgs: seq<string>)
    ensures msgs == [] <==> Acceptable(body, checks)
  {
    var rules := Rules(body, checks);
    assert Acceptable(body, checks) <==> forall i :: 0 <= i < |rules| ==> rules[i].holds by {
      if forall i :: 0 <= i < |rules| ==> rules[i].holds {
        assert rules[0].holds && rules[1].holds && rules[2].holds && rules[3].holds;
        assert rules[4].holds && rules[5].holds && rules[6].holds && rules[7].holds && rules[8].holds;
      }
    }
    Failures(rules)
  }
}

/** `createReviewValidationRules`, run before `createReview`. */
module CreateReviewValidator {
  import opened Wrappers
  import opened Requests
  import opened Validation

  /** The messages say 100 and 1000 where the bounds checked are 50 and 500. */
  function Rules(body: Form, checks: Checks): seq<Rule>
  {
    [ Rule(LengthIn(body.title, 1, 50), "Title must be between 1 and 100 characters long"),
      Rule(NotEmpty(body.content), "Content is required"),
      Rule(LengthIn(body.content, 10, 500), "Content must be between 10 and 1000 characters long"),
      Rule(JsonNotEmpty(body.rating), "Rating is required"),
      Rule(IntIn(body.rating, 1, 5, checks), "Rating must be an integer between 1 and 5"),
      Rule(JsonNotEmpty(body.bookId), "Book ID is required"),
      Rule(IntOf(body.bookId, checks).Some?, "Book ID must be a valid integer") ]
  }

  /** An acceptable review form, field by field. */
  predicate Acceptable(body: Form, checks: Checks)
  {
    && body.title.Some? && 1 <= |body.title.value| <= 50
    && body.content.Some? && 10 <= |body.content.value| <= 500
    && body.rating.Some? && IntIn(body.rating, 1, 5, checks)
    && body.bookId.Some? && IntOf(body.bookId, checks).Some?
  }

  function Errors(body: Form, checks: Checks): (msgs: seq<string>)
    ensures msgs == [] <==> Acceptable(body, checks)
  {
    var rules := Rules(body, checks);
    assert Acceptable(body, checks) <==> forall i :: 0 <= i < |rules| ==> rules[i].holds by {
      if forall i :: 0 <= i < |rules| ==> rules[i].holds {
        assert rules[0].holds && rules[1].holds && rules[2].holds && rules[3].holds;
        assert rules[4].holds && rules[5].holds && rules[6].holds;
      }
    }
    Failures(rules)
  }
}

/** `createBookValidationRules`, run before `createBook` and before `updateBook`. */
module CreateBookValidator {
  import opened Wrappers
  import opened Requests
  import opened Validation

  function Rules(body: Form): seq<Rule>
  {
    [ Rule(NotEmpty(body.title), "Title is required"),
      Rule(LengthIn(body.title, 1, 100), "Title must be between 1 and 100 characters long"),
      Rule(NotEmpty(body.author), "Author is required"),
      Rule(LengthIn(body.author, 2, 50), "Author must be between 2 and 50 characters long") ]
  }

  /** An acceptable book form, field by field. */
  predicate Acceptable(body: Form)
  {
    && body.title.Some? && 1 <= |body.title.value| <= 100
    && body.author.Some? && 2 <= |body.author.value| <= 50
  }

  function Errors(body: Form): (msgs: seq<string>)
    ensures msgs == [] <==> Acceptable(body)
  {
    var rules := Rules(body);
    assert Acceptable(body) <==> forall i :: 0 <= i < |rules| ==> rules[i].holds by {
      if forall i :: 0 <= i < |rules| ==> rules[i].holds {
        assert rules[0].holds && rules[1].holds && rules[2].holds && rules[3].holds;
      }
    }
    Failures(rules)
  }
}

/** `updateUserValidationRules`, run before `updateUserProfile`. */
module UpdateUserValidator {
  import opened Wrappers
  import opened Requests
  import opened Validation
  import RegisterValidator

  function Rules(body: Form, checks: Checks): seq<Rule>
  {
    [ Rule(NotEmpty(body.username), "Username is required"),
      Rule(LengthIn(body.username, 4, 12), "Username must be between 4 and 12 characters long"),
      Rule(NotEmpty(body.email), "Email is required"),
      Rule(checks.isEmail(Text(body.email)), "Must be a valid email address") ]
  }

  /** An acceptable profile form, field by field. */
  predicate Acceptable(body: Form, checks: Checks)
  {
    && body.username.Some? && 4 <= |body.username.value| <= 12
    && body.email.Some? && body.email.value != "" && checks.isEmail(body.email.value)
  }

  function Errors(body: Form, checks: Checks): (msgs: seq<string>)
    ensures msgs == [] <==> Acceptable(body, checks)
  {
    var rules := Rules(body, checks);
    assert Acceptable(body, checks) <==> forall i :: 0 <= i < |rules| ==> rules[i].holds by {
      if forall i :: 0 <= i < |rules| ==> rules[i].holds {
        assert rules[0].holds && rules[1].holds && rules[2].holds && rules[3].holds;
      }
    }
    Failures(rules)
  }

  /**
   * The username and email rules are those of registration: a form the
   * registration rules accept passes the profile rules too.
   */
  lemma RegistrationFormPasses(body: Form, checks: Checks)
    requires RegisterValidator.Errors(body, checks) == []
    ensures Errors(body, checks) == []
  {
  }
}
