/**
 * The page's module-level state and the handlers of script.js that change it:
 * initializeApp, selectLanguage, loadLanguage, updatePageContent,
 * updateLanguageButtons, toggleTheme, updateThemeIcon, the modal's show/hide and
 * its outside-click rule. localStorage is two option-valued fields; fetch is a
 * function from a path to the parsed document passed to the loading handlers.
 */
module Site {
  import opened Wrappers
  import opened Translation
  import opened Content
  import opened Theme
  import opened Loader

  /** A navbar language switch (.lang-switch-btn): its data-lang and whether it has class "active". */
  datatype Button = Button(lang: string, active: bool)

  /** JavaScript truthiness of a localStorage.getItem result: present and not "". */
  predicate Truthy(v: Option<string>)
  {
    v.Some? && v.value != ""
  }

  class Page {
    var currentLanguage: string
    var translations: Json
    /** document.documentElement.lang */
    var docLang: string
    /** localStorage 'preferred-language' and 'preferred-theme' */
    var storedLanguage: Option<string>
    var storedTheme: Option<string>
    /** the body's data-theme attribute */
    var bodyTheme: Option<string>
    /** className of the theme toggle's icon */
    var iconClass: string
    /** the language modal's display is 'flex' (true) or 'none' (false) */
    var modalVisible: bool
    /** the body's overflow is 'hidden' (true) or 'auto' (false) */
    var scrollLocked: bool
    /** locale files fetched, in order: a record of the calls to fetch, kept only to state how many there are */
    ghost var requests: seq<string>
    /** the [data-i18n-key] elements and the navbar language buttons, fixed for the page's lifetime */
    const elements: array<Element>
    const buttons: array<Button>

    /** The state loadLanguage works on, as Loader describes it. */
    ghost function Engine(): EngineState
      reads this, elements
    {
      EngineState(translations, docLang, elements[..], requests)
    }

    /** The page as the script finds it: currentLanguage 'tr', no translations, nothing fetched yet. */
    constructor (elements: array<Element>, buttons: array<Button>, docLang: string,
                 storedLanguage: Option<string>, storedTheme: Option<string>,
                 bodyTheme: Option<string>, iconClass: string, modalVisible: bool, scrollLocked: bool)
      ensures this.elements == elements && this.buttons == buttons
      ensures currentLanguage == DefaultLanguage && translations == Obj(map[]) && requests == []
      ensures this.docLang == docLang && this.storedLanguage == storedLanguage && this.storedTheme == storedTheme
      ensures this.bodyTheme == bodyTheme && this.iconClass == iconClass
      ensures this.modalVisible == modalVisible && this.scrollLocked == scrollLocked
    {
      this.elements := elements;
      this.buttons := buttons;
      currentLanguage := DefaultLanguage;
      translations := Obj(map[]);
      requests := [];
      this.docLang := docLang;
      this.storedLanguage := storedLanguage;
      this.storedTheme := storedTheme;
      this.bodyTheme := bodyTheme;
      this.iconClass := iconClass;
      this.modalVisible := modalVisible;
      this.scrollLocked := scrollLocked;
    }

    method ShowLanguageModal()
      modifies this
      ensures modalVisible && scrollLocked
      ensures currentLanguage == old(currentLanguage) && Engine() == old(Engine())
      ensures storedLanguage == old(storedLanguage) && storedTheme == old(storedTheme)
      ensures bodyTheme == old(bodyTheme) && iconClass == old(iconClass)
    {
      modalVisible, scrollLocked := true, true;
    }

    method HideLanguageModal()
      modifies this
      ensures !modalVisible && !scrollLocked
      ensures currentLanguage == old(currentLanguage) && Engine() == old(Engine())
      ensures storedLanguage == old(storedLanguage) && storedTheme == old(storedTheme)
      ensures bodyTheme == old(bodyTheme) && iconClass == old(iconClass)
    {
      modalVisible, scrollLocked := false, false;
    }

    /** updatePageContent: applies `translations` to every element in order, stopping where one throws. */
    method UpdatePageContent() returns (complete: bool)
      modifies elements
      ensures Rendered(elements[..], complete) == Render(translations, old(elements[..]))
    {
      var i := 0;
      while i < elements.Length
        invariant 0 <= i <= elements.Length
        invariant i <= Stop(translations, old(elements[..]))
        invariant forall k :: 0 <= k < i ==> elements[k] == Applied(translations, old(elements[k]))
        invariant forall k :: i <= k < elements.Length ==> elements[k] == old(elements[k])
      {
        var e := elements[i];
        var r := Resolve(translations, e.key);
        if r.Subtree? {
          assert Throws(translations, old(elements[..])[i]);
          complete := false;
          assert elements[..] == Render(translations, old(elements[..])).elements;
          return;
        }
        if r.Found? && r.text != "" {
          elements[i] := Element(e.key, r.text, ModeFor(r.text));
        }
        i := i + 1;
      }
      complete := true;
      assert elements[..] == Render(translations, old(elements[..])).elements;
    }

    /** loadLanguage: fetch, store, apply, set the lang attribute; on failure retry once with 'tr'. */
    method LoadLanguage(lang: string, server: string -> Option<Json>)
      modifies this, elements
      ensures Engine() == Load(old(Engine()), lang, server)
      ensures currentLanguage == old(currentLanguage)
      ensures storedLanguage == old(storedLanguage) && storedTheme == old(storedTheme)
      ensures bodyTheme == old(bodyTheme) && iconClass == old(iconClass)
      ensures modalVisible == old(modalVisible) && scrollLocked == old(scrollLocked)
      decreases if lang == DefaultLanguage then 0 else 1
    {
      var url := LocaleUrl(lang);
      requests := requests + [url];
      var ok := false;
      var response := server(url);
      if response.Some? {
        translations := response.value;
        ok := UpdatePageContent();
        if ok {
          docLang := lang;
        }
      }
      if !ok && lang != DefaultLanguage {
        LoadLanguage(DefaultLanguage, server);
      }
    }

    /** updateLanguageButtons: exactly the buttons for activeLang are marked active. */
    method UpdateLanguageButtons(activeLang: string)
      modifies buttons
      ensures forall k :: 0 <= k < buttons.Length ==>
        buttons[k].lang == old(buttons[k].lang) && (buttons[k].active <==> buttons[k].lang == activeLang)
    {
      for i := 0 to buttons.Length
        invariant forall k :: 0 <= k < i ==>
          buttons[k].lang == old(buttons[k].lang) && (buttons[k].active <==> buttons[k].lang == activeLang)
        invariant forall k :: i <= k < buttons.Length ==> buttons[k] == old(buttons[k])
      {
        var b := buttons[i];
        buttons[i] := Button(b.lang, b.lang == activeLang);
      }
    }

    /** selectLanguage: remember the choice, load it, hide the modal, highlight its button. */
    method SelectLanguage(lang: string, server: string -> Option<Json>)
      modifies this, elements, buttons
      ensures currentLanguage == lang && storedLanguage == Some(lang)
      ensures Engine() == Load(old(Engine()), lang, server)
      ensures !modalVisible && !scrollLocked
      ensures forall k :: 0 <= k < buttons.Length ==>
        buttons[k].lang == old(buttons[k].lang) && (buttons[k].active <==> buttons[k].lang == lang)
      ensures storedTheme == old(storedTheme) && bodyTheme == old(bodyTheme) && iconClass == old(iconClass)
    {
      currentLanguage := lang;
      storedLanguage := Some(lang);
      LoadLanguage(lang, server);
      HideLanguageModal();
      UpdateLanguageButtons(lang);
    }

    /** updateThemeIcon */
    method UpdateThemeIcon(theme: string)
      modifies this
      ensures iconClass == ThemeIcon(theme)
      ensures currentLanguage == old(currentLanguage) && Engine() == old(Engine())
      ensures storedLanguage == old(storedLanguage) && storedTheme == old(storedTheme)
      ensures bodyTheme == old(bodyTheme)
      ensures modalVisible == old(modalVisible) && scrollLocked == old(scrollLocked)
    {
      iconClass := ThemeIcon(theme);
    }

    /** toggleTheme: flip the body theme, persist it and show the matching icon. */
    method ToggleTheme()
      modifies this
      ensures bodyTheme == Some(Toggled(old(bodyTheme))) && storedTheme == bodyTheme
      ensures iconClass == ThemeIcon(Toggled(old(bodyTheme)))
      ensures currentLanguage == old(currentLanguage) && Engine() == old(Engine())
      ensures storedLanguage == old(storedLanguage)
      ensures modalVisible == old(modalVisible) && scrollLocked == old(scrollLocked)
    {
      var newTheme := Toggled(bodyTheme);
      bodyTheme := Some(newTheme);
      storedTheme := Some(newTheme);
      UpdateThemeIcon(newTheme);
    }

    /** initializeApp: apply a stored theme; adopt a stored language and hide the modal, or show it. */
    method InitializeApp(server: string -> Option<Json>)
      modifies this, elements, buttons
      ensures storedLanguage == old(storedLanguage) && storedTheme == old(storedTheme)
      ensures Truthy(old(storedTheme)) ==>
        bodyTheme == old(storedTheme) && iconClass == ThemeIcon(old(storedTheme).value)
      ensures !Truthy(old(storedTheme)) ==> bodyTheme == old(bodyTheme) && iconClass == old(iconClass)
      ensures Truthy(old(storedLanguage)) ==>
        && currentLanguage == old(storedLanguage).value
        && Engine() == Load(old(Engine()), old(storedLanguage).value, server)
        && !modalVisible && !scrollLocked
        && forall k :: 0 <= k < buttons.Length ==>
             buttons[k].lang == old(buttons[k].lang) && (buttons[k].active <==> buttons[k].lang == currentLanguage)
      ensures !Truthy(old(storedLanguage)) ==>
        && currentLanguage == old(currentLanguage) && Engine() == old(Engine())
        && modalVisible && scrollLocked
        && forall k :: 0 <= k < buttons.Length ==> buttons[k] == old(buttons[k])
    {
      var savedLanguage := storedLanguage;
      var savedTheme := storedTheme;
      if Truthy(savedTheme) {
        bodyTheme := savedTheme;
        UpdateThemeIcon(savedTheme.value);
      }
      if Truthy(savedLanguage) {
        currentLanguage := savedLanguage.value;
        LoadLanguage(savedLanguage.value, server);
        UpdateLanguageButtons(savedLanguage.value);
        HideLanguageModal();
      } else {
        ShowLanguageModal();
      }
    }

    /** A click on the modal: hides it only on the backdrop itself and only once a language is stored. */
    method ModalClick(onBackdrop: bool)
      modifies this
      ensures modalVisible == (old(modalVisible) && !(onBackdrop && Truthy(storedLanguage)))
      ensures scrollLocked == (old(scrollLocked) && !(onBackdrop && Truthy(storedLanguage)))
      ensures currentLanguage == old(currentLanguage) && Engine() == old(Engine())
      ensures storedLanguage == old(storedLanguage) && storedTheme == old(storedTheme)
      ensures bodyTheme == old(bodyTheme) && iconClass == old(iconClass)
    {
      if onBackdrop && Truthy(storedLanguage) {
        HideLanguageModal();
      }
    }
  }
}
