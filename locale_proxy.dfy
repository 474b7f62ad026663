/**
  The locale redirect decision of the request proxy: the root path goes to
  the default locale, a path that carries no supported locale prefix is
  redirected under the default locale, and everything else passes through.
  Only the decision on the path is modelled; building the response is left
  to the web framework.
*/
module LocaleProxy {

  /** The supported locales, in the order they are checked. */
  const Locales: seq<string> := ["tr", "en"]

  const DefaultLocale: string := "tr"

  /** The path prefix every redirect goes under. */
  const DefaultPrefix: string := "/" + DefaultLocale

  datatype Decision = Redirect(target: string) | PassThrough

  predicate StartsWith(s: string, prefix: string)
  {
    |prefix| <= |s| && s[..|prefix|] == prefix
  }

  /** `pathname` is the locale's root or lies in the locale's subtree. */
  predicate HasLocale(pathname: string, locale: string)
  {
    StartsWith(pathname, "/" + locale + "/") || pathname == "/" + locale
  }

  /** No supported locale matches `pathname`. */
  predicate MissingLocale(pathname: string)
  {
    forall i :: 0 <= i < |Locales| ==> !HasLocale(pathname, Locales[i])
  }

  /** The decision taken for a request whose URL path is `pathname`. */
  function Proxy(pathname: string): (d: Decision)
    ensures d.Redirect? ==> StartsWith(d.target, DefaultPrefix)
    ensures d.PassThrough? <==> pathname != "/" && (HasLocale(pathname, "tr") || HasLocale(pathname, "en"))
  {
    assert Locales[0] == "tr" && Locales[1] == "en";
    if pathname == "/" then Redirect(DefaultPrefix)
    else if MissingLocale(pathname) then Redirect(DefaultPrefix + pathname)
    else PassThrough
  }

  /** The default locale is one of the supported ones. */
  lemma DefaultLocaleIsSupported()
    ensures DefaultLocale in Locales && DefaultPrefix == "/tr"
  {
  }

  /** The root path redirects to the default locale's root. */
  lemma RootRedirects()
    ensures Proxy("/") == Redirect("/tr")
  {
  }

  /** The locale roots and anything below them pass through. */
  lemma LocalisedPathsPass(rest: string)
    ensures Proxy("/tr") == PassThrough && Proxy("/en") == PassThrough
    ensures Proxy("/tr/" + rest) == PassThrough && Proxy("/en/" + rest) == PassThrough
  {
    assert StartsWith("/tr/" + rest, "/tr/");
    assert StartsWith("/en/" + rest, "/en/");
  }

  /** Any other path, other than the root, is redirected to the same path
      under the default locale. */
  lemma OtherPathsRedirect(pathname: string)
    requires pathname != "/"
    requires !HasLocale(pathname, "tr") && !HasLocale(pathname, "en")
    ensures Proxy(pathname) == Redirect("/tr" + pathname)
  {
  }

  /** The locale must match a whole path segment: a longer segment that
      merely begins with a locale code is redirected. */
  lemma PrefixIsNotALocale()
    ensures Proxy("/trx") == Redirect("/tr/trx")
    ensures Proxy("/english") == Redirect("/tr/english")
  {
    assert !StartsWith("/trx", "/tr/") by { assert "/trx"[..4][3] != "/tr/"[3]; }
    assert !StartsWith("/trx", "/en/") by { assert "/trx"[..4][1] != "/en/"[1]; }
    assert !StartsWith("/english", "/tr/") by { assert "/english"[..4][1] != "/tr/"[1]; }
    assert !StartsWith("/english", "/en/") by { assert "/english"[..4][3] != "/en/"[3]; }
    assert "/trx" != "/tr" && "/trx" != "/en";
    assert "/english" != "/tr" && "/english" != "/en";
  }

  /** A redirect target is passed through when requested again, for every
      path that starts with a slash. */
  lemma {:induction false} RedirectIsIdempotent(pathname: string)
    requires StartsWith(pathname, "/")
    ensures Proxy(pathname).Redirect? ==> Proxy(Proxy(pathname).target) == PassThrough
  {
    if pathname == "/" {
      assert Proxy(pathname).target == "/tr";
    } else if MissingLocale(pathname) {
      var t := "/tr" + pathname;
      assert t[..4] == "/tr/" by {
        assert pathname[0] == '/';
        assert t[3] == pathname[0];
      }
      assert HasLocale(t, "tr");
      assert t != "/";
    }
  }

  /** Without a leading slash the redirect is not idempotent: the target
      `/trx` is itself redirected. */
  lemma NoLeadingSlashRedirectsTwice()
    ensures Proxy("x") == Redirect("/trx")
    ensures Proxy("/trx").Redirect?
  {
    assert !StartsWith("x", "/tr/") && !StartsWith("x", "/en/");
    assert !StartsWith("/trx", "/tr/") by { assert "/trx"[..4][3] != "/tr/"[3]; }
    assert !StartsWith("/trx", "/en/") by { assert "/trx"[..4][1] != "/en/"[1]; }
  }
}
